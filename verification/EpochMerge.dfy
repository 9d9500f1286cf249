/**
  Committing the batches of an epoch: the four id spaces merged row by row,
  every batch's use replacements replayed over the rows others wrote, and the
  edit and mint counts moved by what each batch counted.
 */
module EpochMerge {
  import opened Options
  import opened SpaceMerge
  import R = Replacements

  const WRAP: nat := 0x1_0000_0000

  datatype OpCells = OpCells(name: nat, holder: nat, position: nat, operands: seq<nat>, results: seq<nat>, regions: seq<nat>, attrs: seq<nat>)

  /** A row of the value, region or block space. */
  datatype Cells = Cells(columns: seq<nat>, lists: seq<seq<nat>>)

  /** What a commit reads of one task's database. */
  datatype Task = Task(
    ops: Batch<OpCells>, values: Batch<Cells>, regions: Batch<Cells>, blocks: Batch<Cells>,
    retargets: R.Log, edits: nat, bumped: seq<nat>, partEdits: map<nat, nat>,
    minted: seq<nat>, moduleMinted: seq<nat>, tick: nat)

  type Maps = seq<map<nat, nat>>

  function OpBatches(tasks: seq<Task>): (b: seq<Batch<OpCells>>)
    ensures |b| == |tasks| && forall i: nat | i < |b| :: b[i] == tasks[i].ops
  {
    seq(|tasks|, i requires 0 <= i < |tasks| => tasks[i].ops)
  }

  function MapsOf(tasks: seq<Task>): (m: Maps)
    ensures |m| == |tasks| && forall i: nat | i < |m| :: m[i] == R.MapOf(tasks[i].retargets)
  {
    seq(|tasks|, i requires 0 <= i < |tasks| => R.MapOf(tasks[i].retargets))
  }

  // ----- Replacing uses.

  /** Whether mapping the base row's operands already gives the batch's row. */
  predicate OnlyRetargeted(m: map<nat, nat>, base: Row<OpCells>, theirs: Row<OpCells>)
  {
    && base.live == theirs.live
    && base.cells.name == theirs.cells.name
    && base.cells.holder == theirs.cells.holder
    && base.cells.position == theirs.cells.position
    && base.cells.results == theirs.cells.results
    && base.cells.regions == theirs.cells.regions
    && base.cells.attrs == theirs.cells.attrs
    && |base.cells.operands| == |theirs.cells.operands|
    && forall i: nat | i < |base.cells.operands| :: R.Apply(m, base.cells.operands[i]) == theirs.cells.operands[i]
  }

  predicate Retargeted(maps: Maps) { exists i: nat :: i < |maps| && maps[i] != map[] }

  function UneditedBy(maps: Maps): Unedited<OpCells>
  {
    (batch: nat, base: Row<OpCells>, theirs: Row<OpCells>) =>
      Retargeted(maps) && batch < |maps| && OnlyRetargeted(maps[batch], base, theirs)
  }

  function Never(): Unedited<Cells> { (batch: nat, base: Row<Cells>, theirs: Row<Cells>) => false }

  /** A value in a row written by `writer`, after every other batch's map in batch order. */
  function Replace(maps: Maps, writer: nat, v: nat): nat
  {
    if maps == [] then v
    else
      var n := |maps| - 1;
      var before := Replace(maps[..n], writer, v);
      if Writer(n) != writer then R.Apply(maps[n], before) else before
  }

  /** Values one after the other, each gone through one more batch's map, but for the writer's own. */
  ghost predicate Steps(maps: Maps, writer: nat, values: seq<nat>)
  {
    0 < |values| <= |maps| + 1 && forall i: nat | i < |values| - 1 :: Goes(maps[i], i, writer, values[i], values[i + 1])
  }

  ghost predicate Goes(m: map<nat, nat>, batch: nat, writer: nat, v: nat, w: nat)
  {
    w == if Writer(batch) != writer && v in m then m[v] else v
  }

  lemma {:induction false} StepsMore(maps: Maps, writer: nat, values: seq<nat>, w: nat)
    requires Steps(maps, writer, values) && |values| <= |maps| && Goes(maps[|values| - 1], |values| - 1, writer, values[|values| - 1], w)
    ensures Steps(maps, writer, values + [w])
  {
    var more := values + [w];
    forall i: nat | i < |more| - 1
      ensures Goes(maps[i], i, writer, more[i], more[i + 1])
    {
      if i < |values| - 1 {
        assert Goes(maps[i], i, writer, values[i], values[i + 1]);
      }
    }
  }

  method ReplaceValue(maps: Maps, writer: nat, v: nat) returns (value: nat, ghost values: seq<nat>)
    ensures value == Replace(maps, writer, v)
    ensures Steps(maps, writer, values) && |values| == |maps| + 1 && values[0] == v && values[|maps|] == value
  {
    value, values := v, [v];
    for batch := 0 to |maps|
      invariant value == Replace(maps[..batch], writer, v)
      invariant Steps(maps, writer, values) && |values| == batch + 1 && values[0] == v && values[batch] == value
    {
      assert maps[..batch + 1][..batch] == maps[..batch];
      if Writer(batch) != writer && value in maps[batch] {
        value := maps[batch][value];
      }
      StepsMore(maps, writer, values, value);
      values := values + [value];
    }
    assert maps[..|maps|] == maps;
  }

  /** The writer whose replacements a merged row already has; 0 for a row nobody wrote. */
  function RowWriter(writers: Writers, stamp: nat, r: nat, committed: nat): nat
  {
    match writers
    case One(b) => if stamp > committed then Writer(b) else 0
    case Each(written) => if r < |written| then written[r] else 0
  }

  function ReplaceRow(maps: Maps, writer: nat, row: Row<OpCells>): Row<OpCells>
  {
    if writer == 0 then row
    else
      var operands := row.cells.operands;
      row.(cells := row.cells.(operands := seq(|operands|, i requires 0 <= i < |operands| => Replace(maps, writer, operands[i]))))
  }

  ghost predicate Replaced(maps: Maps, committed: nat, m: Merged<OpCells>, out: Chunk<OpCells>)
  {
    && out.owner == m.chunk.owner && out.foreign == m.chunk.foreign && |out.rows| == |m.chunk.rows|
    && forall r: nat | r < |out.rows| ::
         out.rows[r] == ReplaceRow(maps, RowWriter(m.writers, m.chunk.rows[r].stamp, r, committed), m.chunk.rows[r])
  }

  method RetargetRow(maps: Maps, writer: nat, row: Row<OpCells>) returns (out: Row<OpCells>)
    requires writer != 0
    ensures out == ReplaceRow(maps, writer, row)
  {
    var operands := row.cells.operands;
    for i := 0 to |operands|
      invariant |operands| == |row.cells.operands|
      invariant forall k: nat | k < i :: operands[k] == Replace(maps, writer, row.cells.operands[k])
      invariant forall k: nat | i <= k < |operands| :: operands[k] == row.cells.operands[k]
    {
      var value, _ := ReplaceValue(maps, writer, operands[i]);
      operands := operands[i := value];
    }
    assert operands == ReplaceRow(maps, writer, row).cells.operands;
    return row.(cells := row.cells.(operands := operands));
  }

  method RetargetRows(maps: Maps, committed: nat, m: Merged<OpCells>) returns (out: Chunk<OpCells>)
    ensures Replaced(maps, committed, m, out)
  {
    var rows := m.chunk.rows;
    for r := 0 to |rows|
      invariant |rows| == |m.chunk.rows|
      invariant forall k: nat | k < r ::
                  rows[k] == ReplaceRow(maps, RowWriter(m.writers, m.chunk.rows[k].stamp, k, committed), m.chunk.rows[k])
      invariant forall k: nat | r <= k < |rows| :: rows[k] == m.chunk.rows[k]
    {
      var writer := RowWriter(m.writers, rows[r].stamp, r, committed);
      if writer != 0 {
        var row := RetargetRow(maps, writer, rows[r]);
        rows := rows[r := row];
      }
    }
    return m.chunk.(rows := rows);
  }

  lemma {:induction false} ReplaceNothing(maps: Maps, writer: nat, v: nat)
    requires !Retargeted(maps)
    ensures Replace(maps, writer, v) == v
  {
    if maps != [] {
      var n := |maps| - 1;
      assert maps[n] == map[];
      assert forall i: nat | i < n :: maps[..n][i] == maps[i];
      ReplaceNothing(maps[..n], writer, v);
    }
  }

  lemma {:induction false} ReplaceRowNothing(maps: Maps, writer: nat, row: Row<OpCells>)
    requires !Retargeted(maps)
    ensures ReplaceRow(maps, writer, row) == row
  {
    forall i: nat | i < |row.cells.operands|
      ensures Replace(maps, writer, row.cells.operands[i]) == row.cells.operands[i]
    {
      ReplaceNothing(maps, writer, row.cells.operands[i]);
    }
    assert ReplaceRow(maps, writer, row).cells.operands == row.cells.operands;
  }

  // ----- What counts as an edit, from the logs and the rows themselves.

  /** The base's row but for its operands, each of which went where the batch's log leads it. */
  ghost predicate OnlyReplaced(log: R.Log, base: Row<OpCells>, theirs: Row<OpCells>)
  {
    && base.live == theirs.live && theirs.cells == base.cells.(operands := theirs.cells.operands)
    && |theirs.cells.operands| == |base.cells.operands|
    && forall k: nat | k < |base.cells.operands| :: R.GoesTo(log, base.cells.operands[k], theirs.cells.operands[k])
  }

  lemma {:induction false} RetargetedIsReplaced(log: R.Log, base: Row<OpCells>, theirs: Row<OpCells>)
    ensures OnlyRetargeted(R.MapOf(log), base, theirs) <==> OnlyReplaced(log, base, theirs)
  {
    if |theirs.cells.operands| == |base.cells.operands| {
      forall k: nat | k < |base.cells.operands|
        ensures R.Apply(R.MapOf(log), base.cells.operands[k]) == theirs.cells.operands[k]
           <==> R.GoesTo(log, base.cells.operands[k], theirs.cells.operands[k])
      {
        R.AppliedGoes(log, base.cells.operands[k], theirs.cells.operands[k]);
      }
    }
  }

  /** Wherever map and replay agree, that is the row with every operand replayed through the log. */
  lemma {:induction false} ReplacedIsReplayed(log: R.Log, base: Row<OpCells>, theirs: Row<OpCells>)
    requires forall k: nat | k < |base.cells.operands| :: R.Apply(R.MapOf(log), base.cells.operands[k]) == R.Replay(log, base.cells.operands[k])
    ensures OnlyReplaced(log, base, theirs) <==>
              && base.live == theirs.live && theirs.cells == base.cells.(operands := theirs.cells.operands)
              && |theirs.cells.operands| == |base.cells.operands|
              && forall k: nat | k < |base.cells.operands| :: theirs.cells.operands[k] == R.Replay(log, base.cells.operands[k])
  {
    forall k: nat, w: nat | k < |base.cells.operands|
      ensures R.GoesTo(log, base.cells.operands[k], w) <==> w == R.Replay(log, base.cells.operands[k])
    {
      R.AppliedGoes(log, base.cells.operands[k], w);
    }
  }

  ghost predicate WroteRow<C>(batch: Batch<C>, committed: nat, index: nat, r: nat)
  {
    index in batch.touched && index in batch.chunks && r < |batch.chunks[index].rows| && batch.chunks[index].rows[r].stamp > committed
  }

  /** A batch edits an op row it wrote, unless uses were replaced in the epoch and that is all it did to a row of the base. */
  ghost predicate EditsRow(base: Space<OpCells>, tasks: seq<Task>, committed: nat, index: nat, r: nat, i: nat)
  {
    && i < |tasks| && WroteRow(tasks[i].ops, committed, index, r)
    && !(&& (exists j: nat :: j < |tasks| && tasks[j].retargets != []) && index in base && r < |base[index].rows|
         && OnlyReplaced(tasks[i].retargets, base[index].rows[r], tasks[i].ops.chunks[index].rows[r]))
  }

  ghost predicate TwoEditors(base: Space<OpCells>, tasks: seq<Task>, committed: nat)
  {
    exists index: nat, r: nat, i: nat, j: nat ::
      index in base && r < CHUNK_ROWS && i < j && EditsRow(base, tasks, committed, index, r, i) && EditsRow(base, tasks, committed, index, r, j)
  }

  ghost predicate TwoWriters<C(!new)>(base: Space<C>, batches: seq<Batch<C>>, committed: nat)
  {
    exists index: nat, r: nat, i: nat, j: nat ::
      index in base && r < CHUNK_ROWS && i < j < |batches| && WroteRow(batches[i], committed, index, r) && WroteRow(batches[j], committed, index, r)
  }

  lemma {:induction false} RetargetedIs(tasks: seq<Task>)
    ensures Retargeted(MapsOf(tasks)) <==> exists j: nat :: j < |tasks| && tasks[j].retargets != []
  {
    forall i: nat | i < |tasks|
      ensures MapsOf(tasks)[i] != map[] <==> tasks[i].retargets != []
    {
      R.MapKeys(tasks[i].retargets);
      if tasks[i].retargets != [] {
        assert tasks[i].retargets[0] in tasks[i].retargets && tasks[i].retargets[0].0 in R.Retired(tasks[i].retargets);
      }
    }
  }

  lemma {:induction false} EditsIs(base: Space<OpCells>, tasks: seq<Task>, committed: nat, index: nat, r: nat, i: nat)
    requires i < |tasks| && index in base
    ensures EditsAt(At(base[index].rows, r), AllVersions(OpBatches(tasks), index, r), committed, UneditedBy(MapsOf(tasks)), i)
       <==> EditsRow(base, tasks, committed, index, r, i)
  {
    RetargetedIs(tasks);
    assert AllVersions(OpBatches(tasks), index, r)[i] == (i, Version(tasks[i].ops, index, r));
    if WroteRow(tasks[i].ops, committed, index, r) && r < |base[index].rows| {
      RetargetedIsReplaced(tasks[i].retargets, base[index].rows[r], tasks[i].ops.chunks[index].rows[r]);
    }
  }

  /** Op rows clash exactly when two batches edit one. */
  lemma {:induction false} OpsClashIs(base: Space<OpCells>, tasks: seq<Task>, committed: nat)
    ensures OpsClash(base, tasks, committed) <==> TwoEditors(base, tasks, committed)
  {
    var batches, unedited := OpBatches(tasks), UneditedBy(MapsOf(tasks));
    forall index: nat, r: nat, i: nat | index in base && i < |tasks|
      ensures EditsAt(At(base[index].rows, r), AllVersions(batches, index, r), committed, unedited, i) <==> EditsRow(base, tasks, committed, index, r, i)
    {
      EditsIs(base, tasks, committed, index, r, i);
    }
    if OpsClash(base, tasks, committed) {
      var index, r :| RowClashes(base, batches, committed, unedited, index, r);
      var i: nat, j: nat :| i < j < |tasks| &&
        EditsAt(At(base[index].rows, r), AllVersions(batches, index, r), committed, unedited, i) &&
        EditsAt(At(base[index].rows, r), AllVersions(batches, index, r), committed, unedited, j);
      assert EditsRow(base, tasks, committed, index, r, i) && EditsRow(base, tasks, committed, index, r, j);
    }
    if index: nat, r: nat, i: nat, j: nat :|
      index in base && r < CHUNK_ROWS && i < j && EditsRow(base, tasks, committed, index, r, i) && EditsRow(base, tasks, committed, index, r, j) {
      assert RowClashes(base, batches, committed, unedited, index, r);
    }
  }

  /** Rows of the other spaces clash exactly when two batches wrote one. */
  lemma {:induction false} ClashIs(base: Space<Cells>, batches: seq<Batch<Cells>>, committed: nat)
    ensures Clash(base, batches, committed, Never()) <==> TwoWriters(base, batches, committed)
  {
    forall index: nat, r: nat, i: nat | index in base && i < |batches|
      ensures EditsAt(At(base[index].rows, r), AllVersions(batches, index, r), committed, Never(), i) <==> WroteRow(batches[i], committed, index, r)
    {
    }
    if index: nat, r: nat, i: nat, j: nat :|
      index in base && r < CHUNK_ROWS && i < j < |batches| && WroteRow(batches[i], committed, index, r) && WroteRow(batches[j], committed, index, r) {
      assert RowClashes(base, batches, committed, Never(), index, r);
    }
  }

  // ----- One space committed.

  /** Chunk by chunk: untouched ones stay, touched ones are merged. */
  ghost predicate SpaceMerged<C>(base: Space<C>, batches: seq<Batch<C>>, committed: nat, unedited: Unedited<C>, out: Space<C>)
  {
    && out.Keys == base.Keys + Touched(batches)
    && (forall index | index in base && index !in Touched(batches) :: out[index] == base[index])
    && (forall index | index in Touched(batches) ::
          exists w: Writers :: ChunkMerged(base, batches, committed, unedited, index, Merged(out[index], w)))
  }

  ghost predicate OpsMerged(base: Space<OpCells>, tasks: seq<Task>, committed: nat, out: Space<OpCells>)
  {
    var batches := OpBatches(tasks);
    && out.Keys == base.Keys + Touched(batches)
    && (forall index | index in base && index !in Touched(batches) :: out[index] == base[index])
    && (forall index | index in Touched(batches) :: OpChunkMerged(base, tasks, committed, index, out[index]))
  }

  ghost predicate OpChunkMerged(base: Space<OpCells>, tasks: seq<Task>, committed: nat, index: nat, out: Chunk<OpCells>)
  {
    exists m :: ChunkMerged(base, OpBatches(tasks), committed, UneditedBy(MapsOf(tasks)), index, m) && Replaced(MapsOf(tasks), committed, m, out)
  }

  /** Two batches edit one row of the space. */
  ghost predicate Clash<C>(base: Space<C>, batches: seq<Batch<C>>, committed: nat, unedited: Unedited<C>)
  {
    exists index, row :: RowClashes(base, batches, committed, unedited, index, row)
  }

  ghost predicate OpsClash(base: Space<OpCells>, tasks: seq<Task>, committed: nat)
  {
    Clash(base, OpBatches(tasks), committed, UneditedBy(MapsOf(tasks)))
  }

  method CommitSpace(base: Space<Cells>, batches: seq<Batch<Cells>>, committed: nat) returns (out: Option<Space<Cells>>)
    requires Epoch(base, batches, committed)
    ensures out.None? <==> Clash(base, batches, committed, Never())
    ensures out.Some? ==> SpaceMerged(base, batches, committed, Never(), out.value)
  {
    var merged := MergeSpace(base, batches, committed, Never());
    if merged.None? {
      return None;
    }
    var result := base + map index | index in merged.value :: merged.value[index].chunk;
    PutMerges(base, batches, committed, Never(), merged.value, result);
    return Some(result);
  }

  lemma {:induction false} PutMerges<C>(base: Space<C>, batches: seq<Batch<C>>, committed: nat, unedited: Unedited<C>, merged: map<nat, Merged<C>>, out: Space<C>)
    requires merged.Keys == Touched(batches) && out == base + map index | index in merged :: merged[index].chunk
    requires forall index | index in merged :: ChunkMerged(base, batches, committed, unedited, index, merged[index])
    ensures SpaceMerged(base, batches, committed, unedited, out)
  {
  }

  method CommitOps(base: Space<OpCells>, tasks: seq<Task>, committed: nat) returns (out: Option<Space<OpCells>>)
    requires Epoch(base, OpBatches(tasks), committed)
    ensures out.None? <==> OpsClash(base, tasks, committed)
    ensures out.None? <==> TwoEditors(base, tasks, committed)
    ensures out.Some? ==> OpsMerged(base, tasks, committed, out.value)
  {
    OpsClashIs(base, tasks, committed);
    var maps: Maps := [];
    for i := 0 to |tasks|
      invariant maps == MapsOf(tasks[..i])
    {
      var m := R.RetargetMap(tasks[i].retargets);
      maps := maps + [m];
    }
    assert tasks[..|tasks|] == tasks;
    var merged := MergeSpace(base, OpBatches(tasks), committed, UneditedBy(maps));
    if merged.None? {
      return None;
    }
    var chunks := RetargetChunks(maps, committed, merged.value);
    var result := base + chunks;
    forall index | index in Touched(OpBatches(tasks))
      ensures OpChunkMerged(base, tasks, committed, index, result[index])
    {
      assert Replaced(maps, committed, merged.value[index], chunks[index]);
    }
    return Some(result);
  }

  /** Replacements replayed over every merged chunk; skipped when no batch replaced anything. */
  method RetargetChunks(maps: Maps, committed: nat, merged: map<nat, Merged<OpCells>>) returns (chunks: Space<OpCells>)
    ensures chunks.Keys == merged.Keys
    ensures forall index | index in chunks :: Replaced(maps, committed, merged[index], chunks[index])
  {
    if !Retargeted(maps) {
      chunks := map index | index in merged :: merged[index].chunk;
      forall index, r: nat | index in chunks && r < |chunks[index].rows|
        ensures chunks[index].rows[r]
             == ReplaceRow(maps, RowWriter(merged[index].writers, chunks[index].rows[r].stamp, r, committed), chunks[index].rows[r])
      {
        ReplaceRowNothing(maps, RowWriter(merged[index].writers, chunks[index].rows[r].stamp, r, committed), chunks[index].rows[r]);
      }
      return;
    }
    chunks := map[];
    var todo := merged.Keys;
    while todo != {}
      invariant todo <= merged.Keys && chunks.Keys == merged.Keys - todo
      invariant forall index | index in chunks :: Replaced(maps, committed, merged[index], chunks[index])
      decreases todo
    {
      var index :| index in todo;
      var chunk := RetargetRows(maps, committed, merged[index]);
      chunks := chunks[index := chunk];
      todo := todo - {index};
    }
  }
}
