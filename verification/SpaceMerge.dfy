/**
  Merging the batches of an epoch in one id space: chunk by chunk, row by row,
  each row taken from the one batch that edited it. `unedited` says which
  writes only replaced uses; those do not count as edits.
 */
module SpaceMerge {
  import opened Options

  const RETARGETED: nat := 0xffff
  const CHUNK_ROWS: nat := 4096
  /** More batches than this and a batch number would collide with `RETARGETED`. */
  const MAX_BATCHES: nat := 65534

  datatype Row<C> = Row(stamp: nat, live: bool, cells: C)

  datatype Chunk<C> = Chunk(owner: nat, foreign: seq<nat>, rows: seq<Row<C>>)

  type Space<C> = map<nat, Chunk<C>>

  /** What a batch made of a space, and the chunks it wrote. */
  datatype Batch<C> = Batch(chunks: Space<C>, touched: set<nat>)

  /** The origin of a merged chunk's rows: a single batch's copy, or for each row the `Writer` number of its batch. */
  datatype Writers = One(batch: nat) | Each(written: seq<nat>)

  datatype Merged<C> = Merged(chunk: Chunk<C>, writers: Writers)

  type Unedited<!C> = (nat, Row<C>, Row<C>) -> bool

  function At<C>(rows: seq<Row<C>>, r: nat): Option<Row<C>> { if r < |rows| then Some(rows[r]) else None }

  /** A batch number as a 16-bit writer. */
  function Writer(batch: nat): nat { (batch % 0x1_0000 + 1) % 0x1_0000 }

  // ----- One row.

  /** A row as merged so far and who wrote it. */
  datatype Cell<C> = Cell(row: Option<Row<C>>, writer: nat)

  /** Whether a batch's version counts as an edit of the row. */
  predicate Edits<C>(base: Option<Row<C>>, theirs: Option<Row<C>>, batch: nat, committed: nat, unedited: Unedited<C>)
  {
    theirs.Some? && theirs.value.stamp > committed && !(base.Some? && unedited(batch, base.value, theirs.value))
  }

  /** One batch's version of the row merged in; `None` when two batches edit it. */
  function Absorb<C>(base: Option<Row<C>>, acc: Cell<C>, batch: nat, theirs: Option<Row<C>>, committed: nat, unedited: Unedited<C>): Option<Cell<C>>
  {
    if theirs.None? || theirs.value.stamp <= committed then Some(acc)
    else if base.Some? && unedited(batch, base.value, theirs.value) then
      Some(acc.(writer := if acc.writer == 0 then RETARGETED else acc.writer))
    else if acc.writer != 0 && acc.writer != RETARGETED then None
    else Some(Cell(theirs, Writer(batch)))
  }

  /** The versions of one row in batch order: `(batch, version)`. */
  type Versions<C> = seq<(nat, Option<Row<C>>)>

  function Fold<C>(base: Option<Row<C>>, versions: Versions<C>, committed: nat, unedited: Unedited<C>): Option<Cell<C>>
  {
    if versions == [] then Some(Cell(base, 0))
    else
      var n := |versions| - 1;
      match Fold(base, versions[..n], committed, unedited)
      case None => None
      case Some(acc) => Absorb(base, acc, versions[n].0, versions[n].1, committed, unedited)
  }

  ghost predicate EditsAt<C>(base: Option<Row<C>>, versions: Versions<C>, committed: nat, unedited: Unedited<C>, i: nat)
    requires i < |versions|
  {
    Edits(base, versions[i].1, versions[i].0, committed, unedited)
  }

  ghost predicate TwoEdit<C>(base: Option<Row<C>>, versions: Versions<C>, committed: nat, unedited: Unedited<C>)
  {
    exists i: nat, j: nat :: i < j < |versions| &&
      EditsAt(base, versions, committed, unedited, i) && EditsAt(base, versions, committed, unedited, j)
  }

  ghost predicate SomeEdit<C>(base: Option<Row<C>>, versions: Versions<C>, committed: nat, unedited: Unedited<C>)
  {
    exists i: nat :: i < |versions| && EditsAt(base, versions, committed, unedited, i)
  }

  ghost predicate Wrote<C>(theirs: Option<Row<C>>, committed: nat) { theirs.Some? && theirs.value.stamp > committed }

  /** What a merged row is: its one editor's version, or the base's row, marked if uses were replaced in it. */
  ghost predicate RowIs<C>(base: Option<Row<C>>, versions: Versions<C>, committed: nat, unedited: Unedited<C>, cell: Cell<C>)
  {
    && (forall i: nat | i < |versions| && EditsAt(base, versions, committed, unedited, i) ::
          cell.row == versions[i].1 && cell.writer == versions[i].0 + 1)
    && ((forall i: nat | i < |versions| :: !EditsAt(base, versions, committed, unedited, i)) ==>
          cell.row == base && cell.writer == if SomeWrote(versions, committed) then RETARGETED else 0)
  }

  ghost predicate SomeWrote<C>(versions: Versions<C>, committed: nat)
  {
    exists i: nat :: i < |versions| && Wrote(versions[i].1, committed)
  }

  /** The fold fails exactly when two batches edit the row, and otherwise gives that row. */
  lemma {:induction false} FoldIsMerge<C(!new)>(base: Option<Row<C>>, versions: Versions<C>, committed: nat, unedited: Unedited<C>)
    requires forall i: nat | i < |versions| :: versions[i].0 < MAX_BATCHES
    ensures Fold(base, versions, committed, unedited).None? <==> TwoEdit(base, versions, committed, unedited)
    ensures Fold(base, versions, committed, unedited).Some? ==>
              RowIs(base, versions, committed, unedited, Fold(base, versions, committed, unedited).value)
    decreases |versions|
  {
    if versions != [] {
      var n := |versions| - 1;
      var init := versions[..n];
      FoldIsMerge(base, init, committed, unedited);
      assert forall i: nat | i < n :: EditsAt(base, init, committed, unedited, i) <==> EditsAt(base, versions, committed, unedited, i);
      FoldStep(base, versions, committed, unedited);
    }
  }

  lemma {:induction false} FoldStep<C(!new)>(base: Option<Row<C>>, versions: Versions<C>, committed: nat, unedited: Unedited<C>)
    requires versions != [] && forall i: nat | i < |versions| :: versions[i].0 < MAX_BATCHES
    requires var init := versions[..|versions| - 1];
             && (Fold(base, init, committed, unedited).None? <==> TwoEdit(base, init, committed, unedited))
             && (Fold(base, init, committed, unedited).Some? ==> RowIs(base, init, committed, unedited, Fold(base, init, committed, unedited).value))
    ensures Fold(base, versions, committed, unedited).None? <==> TwoEdit(base, versions, committed, unedited)
    ensures Fold(base, versions, committed, unedited).Some? ==>
              RowIs(base, versions, committed, unedited, Fold(base, versions, committed, unedited).value)
  {
    var n := |versions| - 1;
    var init := versions[..n];
    var before := Fold(base, init, committed, unedited);
    TwoEditStep(base, versions, committed, unedited);
    if before.Some? {
      assert SomeEdit(base, init, committed, unedited) <==> before.value.writer != 0 && before.value.writer != RETARGETED;
      if Fold(base, versions, committed, unedited).Some? {
        RowIsStep(base, versions, committed, unedited, before.value);
      }
    }
  }

  lemma {:induction false} TwoEditStep<C(!new)>(base: Option<Row<C>>, versions: Versions<C>, committed: nat, unedited: Unedited<C>)
    requires versions != []
    ensures var n := |versions| - 1;
            TwoEdit(base, versions, committed, unedited) <==>
              || TwoEdit(base, versions[..n], committed, unedited)
              || (EditsAt(base, versions, committed, unedited, n) && SomeEdit(base, versions[..n], committed, unedited))
  {
    var n := |versions| - 1;
    var init := versions[..n];
    assert forall i: nat | i < n :: EditsAt(base, init, committed, unedited, i) <==> EditsAt(base, versions, committed, unedited, i);
    if i: nat, j: nat :| i < j < n && EditsAt(base, init, committed, unedited, i) && EditsAt(base, init, committed, unedited, j) {
      assert EditsAt(base, versions, committed, unedited, i) && EditsAt(base, versions, committed, unedited, j);
    }
    if i: nat :| i < n && EditsAt(base, init, committed, unedited, i) {
      assert EditsAt(base, versions, committed, unedited, i);
    }
  }

  lemma {:induction false} RowIsStep<C(!new)>(base: Option<Row<C>>, versions: Versions<C>, committed: nat, unedited: Unedited<C>, acc: Cell<C>)
    requires versions != [] && versions[|versions| - 1].0 < MAX_BATCHES && RowIs(base, versions[..|versions| - 1], committed, unedited, acc)
    requires SomeEdit(base, versions[..|versions| - 1], committed, unedited) <==> acc.writer != 0 && acc.writer != RETARGETED
    requires Absorb(base, acc, versions[|versions| - 1].0, versions[|versions| - 1].1, committed, unedited).Some?
    ensures RowIs(base, versions, committed, unedited,
                  Absorb(base, acc, versions[|versions| - 1].0, versions[|versions| - 1].1, committed, unedited).value)
  {
    var n := |versions| - 1;
    var init := versions[..n];
    var out := Absorb(base, acc, versions[n].0, versions[n].1, committed, unedited).value;
    forall i: nat | i < n
      ensures EditsAt(base, init, committed, unedited, i) <==> EditsAt(base, versions, committed, unedited, i)
    {
    }
    SomeWroteStep(versions, committed);
    forall i: nat | i < |versions| && EditsAt(base, versions, committed, unedited, i)
      ensures out.row == versions[i].1 && out.writer == versions[i].0 + 1
    {
      if i < n {
        assert EditsAt(base, init, committed, unedited, i);
        assert acc.row == init[i].1 && acc.writer == init[i].0 + 1;
      }
    }
    if forall i: nat | i < |versions| :: !EditsAt(base, versions, committed, unedited, i) {
      assert forall i: nat | i < n :: !EditsAt(base, init, committed, unedited, i);
      assert !EditsAt(base, versions, committed, unedited, n);
    }
  }

  lemma {:induction false} SomeWroteStep<C>(versions: Versions<C>, committed: nat)
    requires versions != []
    ensures var n := |versions| - 1;
            SomeWrote(versions, committed) <==> SomeWrote(versions[..n], committed) || Wrote(versions[n].1, committed)
  {
  }

  // ----- One chunk written by several batches.

  /** The versions of row `r` of a chunk in the batches of `group`. */
  function VersionsOf<C>(group: seq<(nat, Chunk<C>)>, r: nat): (v: Versions<C>)
    ensures |v| == |group| && forall i: nat | i < |v| :: v[i] == (group[i].0, At(group[i].1.rows, r))
  {
    seq(|group|, i requires 0 <= i < |group| => (group[i].0, At(group[i].1.rows, r)))
  }

  function FoldRow<C>(base: Chunk<C>, group: seq<(nat, Chunk<C>)>, committed: nat, unedited: Unedited<C>, r: nat): Option<Cell<C>>
  {
    Fold(At(base.rows, r), VersionsOf(group, r), committed, unedited)
  }

  /** A committed chunk as a batch has it: rows stamped no later than the commit are the base's own. */
  ghost predicate CopyOf<C>(base: Chunk<C>, theirs: Chunk<C>, committed: nat)
  {
    && theirs.owner == base.owner && |base.rows| <= |theirs.rows| <= CHUNK_ROWS
    && (forall r: nat | r < |theirs.rows| && theirs.rows[r].stamp <= committed :: r < |base.rows| && theirs.rows[r] == base.rows[r])
  }

  /** The chunk after the batches of `group` are merged in. */
  ghost predicate MergesTo<C>(base: Chunk<C>, group: seq<(nat, Chunk<C>)>, committed: nat, unedited: Unedited<C>, rows: seq<Row<C>>, written: seq<nat>)
  {
    |written| == CHUNK_ROWS && |rows| <= CHUNK_ROWS && forall r: nat | r < CHUNK_ROWS ::
      FoldRow(base, group, committed, unedited, r) == Some(Cell(At(rows, r), written[r]))
  }

  lemma {:induction false} FoldPush<C>(base: Chunk<C>, group: seq<(nat, Chunk<C>)>, batch: nat, theirs: Chunk<C>, committed: nat, unedited: Unedited<C>, r: nat)
    ensures FoldRow(base, group + [(batch, theirs)], committed, unedited, r)
         == match FoldRow(base, group, committed, unedited, r)
            case None => None
            case Some(acc) => Absorb(At(base.rows, r), acc, batch, At(theirs.rows, r), committed, unedited)
  {
    var all := VersionsOf(group + [(batch, theirs)], r);
    assert all[..|group|] == VersionsOf(group, r);
  }

  /** One batch's rows merged in; `None` with the row when an earlier batch edits it too. */
  method MergeRows<C>(base: Chunk<C>, rows0: seq<Row<C>>, written0: seq<nat>, batch: nat, theirs: Chunk<C>, committed: nat, unedited: Unedited<C>)
    returns (rows: seq<Row<C>>, written: seq<nat>, clash: Option<nat>)
    requires CopyOf(base, theirs, committed) && |written0| == CHUNK_ROWS && |base.rows| <= |rows0| <= CHUNK_ROWS
    requires forall r: nat | |rows0| <= r < CHUNK_ROWS :: written0[r] == 0
    requires forall r: nat | |base.rows| <= r < |rows0| :: written0[r] != 0 && written0[r] != RETARGETED
    ensures clash.Some? ==> clash.value < CHUNK_ROWS
    ensures clash.Some? ==>
              Absorb(At(base.rows, clash.value), Cell(At(rows0, clash.value), written0[clash.value]), batch, At(theirs.rows, clash.value), committed, unedited).None?
    ensures clash.None? ==> |written| == CHUNK_ROWS && |rows0| <= |rows| <= CHUNK_ROWS && forall r: nat | r < CHUNK_ROWS ::
              Absorb(At(base.rows, r), Cell(At(rows0, r), written0[r]), batch, At(theirs.rows, r), committed, unedited) == Some(Cell(At(rows, r), written[r]))
  {
    rows, written, clash := rows0, written0, None;
    for row := 0 to |theirs.rows|
      invariant |written| == CHUNK_ROWS && |rows0| <= |rows| <= CHUNK_ROWS
      invariant |rows| == if row <= |rows0| then |rows0| else row
      invariant forall r: nat | r < row ::
                  Absorb(At(base.rows, r), Cell(At(rows0, r), written0[r]), batch, At(theirs.rows, r), committed, unedited) == Some(Cell(At(rows, r), written[r]))
      invariant forall r: nat | row <= r < CHUNK_ROWS :: At(rows, r) == At(rows0, r) && written[r] == written0[r]
    {
      var their := theirs.rows[row];
      if their.stamp <= committed {
        continue;
      }
      if row < |base.rows| && unedited(batch, base.rows[row], their) {
        if written[row] == 0 {
          written := written[row := RETARGETED];
        }
        continue;
      }
      if written[row] != 0 && written[row] != RETARGETED {
        return rows, written, Some(row);
      }
      written := written[row := Writer(batch)];
      rows := if row == |rows| then rows + [their] else rows[row := their];
    }
  }

  /** Foreign partitions gathered from the batches' copies, none twice. */
  method MergeForeign(owner: nat, foreign0: seq<nat>, theirs: seq<nat>) returns (foreign: seq<nat>)
    ensures forall p :: p in foreign <==> p in foreign0 || (p in theirs && p != owner)
  {
    foreign := foreign0;
    for i := 0 to |theirs|
      invariant forall p :: p in foreign <==> p in foreign0 || (p in theirs[..i] && p != owner)
    {
      if theirs[i] != owner && theirs[i] !in foreign {
        foreign := foreign + [theirs[i]];
      }
      assert theirs[..i + 1] == theirs[..i] + [theirs[i]];
    }
    assert theirs[..|theirs|] == theirs;
  }

  ghost predicate ForeignMerged<C>(base: Chunk<C>, group: seq<(nat, Chunk<C>)>, foreign: seq<nat>)
  {
    forall p :: p in foreign <==> p in base.foreign || (p != base.owner && exists i :: 0 <= i < |group| && p in group[i].1.foreign)
  }

  lemma {:induction false} ForeignPush<C>(base: Chunk<C>, group: seq<(nat, Chunk<C>)>, n: nat, before: seq<nat>, after: seq<nat>)
    requires n < |group| && ForeignMerged(base, group[..n], before)
    requires forall p :: p in after <==> p in before || (p in group[n].1.foreign && p != base.owner)
    ensures ForeignMerged(base, group[..n + 1], after)
  {
  }

  lemma {:induction false} RowsGrow<C(!new)>(base: Chunk<C>, group: seq<(nat, Chunk<C>)>, committed: nat, unedited: Unedited<C>, rows: seq<Row<C>>, written: seq<nat>)
    requires MergesTo(base, group, committed, unedited, rows, written) && |base.rows| <= CHUNK_ROWS
    requires forall i: nat | i < |group| :: group[i].0 < MAX_BATCHES
    ensures |base.rows| <= |rows|
    ensures forall r: nat | |rows| <= r < CHUNK_ROWS :: written[r] == 0
    ensures forall r: nat | |base.rows| <= r < |rows| :: written[r] != 0 && written[r] != RETARGETED
  {
    forall r: nat | r < CHUNK_ROWS
      ensures r < |base.rows| ==> r < |rows|
      ensures |rows| <= r ==> written[r] == 0
      ensures |base.rows| <= r < |rows| ==> written[r] != 0 && written[r] != RETARGETED
    {
      var versions := VersionsOf(group, r);
      FoldIsMerge(At(base.rows, r), versions, committed, unedited);
      assert FoldRow(base, group, committed, unedited, r) == Some(Cell(At(rows, r), written[r]));
      if i: nat :| i < |versions| && EditsAt(At(base.rows, r), versions, committed, unedited, i) {
        assert At(rows, r) == versions[i].1;
      } else if i: nat :| i < |versions| && Wrote(versions[i].1, committed) {
        assert !EditsAt(At(base.rows, r), versions, committed, unedited, i);
      }
    }
    if |base.rows| > 0 {
      var last: nat := |base.rows| - 1;
      assert written[last] >= 0 && last < |rows|;
    }
  }

  /** A committed chunk and its writers' copies, merged; `None` when two of them edit a row. */
  method MergeChunk<C(!new)>(base: Chunk<C>, group: seq<(nat, Chunk<C>)>, committed: nat, unedited: Unedited<C>)
    returns (r: Option<Merged<C>>)
    requires |base.rows| <= CHUNK_ROWS && forall i: nat | i < |group| :: group[i].0 < MAX_BATCHES && CopyOf(base, group[i].1, committed)
    ensures r.None? <==> exists row: nat :: row < CHUNK_ROWS && FoldRow(base, group, committed, unedited, row).None?
    ensures r.Some? ==> r.value.writers.Each? && MergesTo(base, group, committed, unedited, r.value.chunk.rows, r.value.writers.written)
    ensures r.Some? ==> r.value.chunk.owner == base.owner && ForeignMerged(base, group, r.value.chunk.foreign)
  {
    var rows, foreign := base.rows, base.foreign;
    var written := seq(CHUNK_ROWS, _ => 0);
    for n := 0 to |group|
      invariant MergesTo(base, group[..n], committed, unedited, rows, written)
      invariant ForeignMerged(base, group[..n], foreign)
    {
      var (batch, theirs) := group[n];
      assert group[..n + 1] == group[..n] + [(batch, theirs)];
      RowsGrow(base, group[..n], committed, unedited, rows, written);
      ghost var rows0, written0 := rows, written;
      var clash;
      rows, written, clash := MergeRows(base, rows, written, batch, theirs, committed, unedited);
      if clash.Some? {
        FoldPush(base, group[..n], batch, theirs, committed, unedited, clash.value);
        FoldFails(base, group, n + 1, committed, unedited, clash.value);
        return None;
      }
      forall row: nat | row < CHUNK_ROWS
        ensures FoldRow(base, group[..n + 1], committed, unedited, row) == Some(Cell(At(rows, row), written[row]))
      {
        FoldPush(base, group[..n], batch, theirs, committed, unedited, row);
      }
      ghost var before := foreign;
      foreign := MergeForeign(base.owner, foreign, theirs.foreign);
      ForeignPush(base, group, n, before, foreign);
    }
    assert group[..|group|] == group;
    return Some(Merged(Chunk(base.owner, foreign, rows), Each(written)));
  }

  lemma {:induction false} FoldFails<C>(base: Chunk<C>, group: seq<(nat, Chunk<C>)>, n: nat, committed: nat, unedited: Unedited<C>, r: nat)
    requires n <= |group| && FoldRow(base, group[..n], committed, unedited, r).None?
    ensures FoldRow(base, group, committed, unedited, r).None?
    decreases |group| - n
  {
    if n < |group| {
      assert group[..n + 1] == group[..n] + [(group[n].0, group[n].1)];
      FoldPush(base, group[..n], group[n].0, group[n].1, committed, unedited, r);
      FoldFails(base, group, n + 1, committed, unedited, r);
    } else {
      assert group[..n] == group;
    }
  }

  // ----- One space.

  /** Batch `b`'s version of row `r` of chunk `index`, if it wrote the chunk. */
  function Version<C>(b: Batch<C>, index: nat, r: nat): Option<Row<C>>
  {
    if index in b.touched && index in b.chunks then At(b.chunks[index].rows, r) else None
  }

  function AllVersions<C>(batches: seq<Batch<C>>, index: nat, r: nat): (v: Versions<C>)
    ensures |v| == |batches| && forall i: nat | i < |v| :: v[i] == (i, Version(batches[i], index, r))
  {
    seq(|batches|, i requires 0 <= i < |batches| => (i, Version(batches[i], index, r)))
  }

  /** The batches that wrote chunk `index`, in order, each with its copy. */
  function Group<C>(batches: seq<Batch<C>>, index: nat): (g: seq<(nat, Chunk<C>)>)
    ensures forall k: nat | k < |g| :: g[k].0 < |batches|
  {
    if batches == [] then []
    else
      var n := |batches| - 1;
      Group(batches[..n], index)
        + if index in batches[n].touched && index in batches[n].chunks then [(n, batches[n].chunks[index])] else []
  }

  lemma {:induction false} FoldLast<C>(base: Option<Row<C>>, init: Versions<C>, last: (nat, Option<Row<C>>), committed: nat, unedited: Unedited<C>)
    ensures Fold(base, init + [last], committed, unedited)
         == match Fold(base, init, committed, unedited)
            case None => None
            case Some(acc) => Absorb(base, acc, last.0, last.1, committed, unedited)
  {
  }

  lemma {:induction false} GroupMore<C>(batches: seq<Batch<C>>, index: nat, r: nat)
    requires batches != [] && index in batches[|batches| - 1].touched && index in batches[|batches| - 1].chunks
    ensures var n := |batches| - 1;
            VersionsOf(Group(batches, index), r) == VersionsOf(Group(batches[..n], index), r) + [(n, Version(batches[n], index, r))]
  {
  }

  /** Batches that did not write the chunk change nothing. */
  lemma {:induction false} FoldGroup<C>(base: Option<Row<C>>, batches: seq<Batch<C>>, index: nat, r: nat, committed: nat, unedited: Unedited<C>)
    ensures Fold(base, VersionsOf(Group(batches, index), r), committed, unedited)
         == Fold(base, AllVersions(batches, index, r), committed, unedited)
  {
    if batches == [] {
      assert VersionsOf(Group(batches, index), r) == AllVersions(batches, index, r);
    } else {
      var n := |batches| - 1;
      var init := batches[..n];
      FoldGroup(base, init, index, r, committed, unedited);
      var last := (n, Version(batches[n], index, r));
      assert AllVersions(batches, index, r) == AllVersions(init, index, r) + [last];
      FoldLast(base, AllVersions(init, index, r), last, committed, unedited);
      if index in batches[n].touched && index in batches[n].chunks {
        GroupMore(batches, index, r);
        FoldLast(base, VersionsOf(Group(init, index), r), last, committed, unedited);
      } else {
        assert Group(batches, index) == Group(init, index);
      }
    }
  }

  ghost predicate OnlyWriter<C>(batches: seq<Batch<C>>, index: nat, b: nat)
  {
    && b < |batches| && index in batches[b].touched
    && forall i: nat | i < |batches| && i != b :: index !in batches[i].touched
  }

  /** Every batch has the chunks it wrote. */
  ghost predicate Held<C>(batches: seq<Batch<C>>)
  {
    forall b: nat | b < |batches| :: forall index | index in batches[b].touched :: index in batches[b].chunks
  }

  lemma {:induction false} GroupNone<C>(batches: seq<Batch<C>>, index: nat)
    requires Held(batches)
    ensures Group(batches, index) == [] <==> forall i: nat | i < |batches| :: index !in batches[i].touched
  {
    if batches != [] {
      var n := |batches| - 1;
      GroupNone(batches[..n], index);
      assert forall i: nat | i < n :: batches[..n][i] == batches[i];
    }
  }

  lemma {:induction false} GroupOne<C>(batches: seq<Batch<C>>, index: nat)
    requires Held(batches) && |Group(batches, index)| == 1
    ensures OnlyWriter(batches, index, Group(batches, index)[0].0)
    ensures Group(batches, index)[0].1 == batches[Group(batches, index)[0].0].chunks[index]
  {
    var n := |batches| - 1;
    var init := batches[..n];
    assert forall i: nat | i < n :: init[i] == batches[i];
    if index in batches[n].touched {
      GroupNone(init, index);
    } else {
      GroupOne(init, index);
    }
  }

  lemma {:induction false} GroupMany<C>(batches: seq<Batch<C>>, index: nat, b: nat)
    requires Held(batches) && OnlyWriter(batches, index, b)
    ensures |Group(batches, index)| == 1
  {
    var n := |batches| - 1;
    var init := batches[..n];
    assert forall i: nat | i < n :: init[i] == batches[i];
    if b == n {
      GroupNone(init, index);
    } else {
      GroupMany(init, index, b);
    }
  }

  /** The batches of an epoch over a committed space. */
  ghost predicate Epoch<C>(base: Space<C>, batches: seq<Batch<C>>, committed: nat)
  {
    && |batches| <= MAX_BATCHES && Held(batches)
    && (forall index | index in base :: |base[index].rows| <= CHUNK_ROWS)
    && (forall b: nat, index | b < |batches| && index in batches[b].touched && index in base ::
          CopyOf(base[index], batches[b].chunks[index], committed))
    && (forall b: nat, index | b < |batches| && index in batches[b].touched && index !in base ::
          forall r: nat | r < |batches[b].chunks[index].rows| :: batches[b].chunks[index].rows[r].stamp > committed)
    && SharedIsCommitted(base, batches)
  }

  /** A chunk two batches wrote is one the base has. */
  ghost predicate SharedIsCommitted<C>(base: Space<C>, batches: seq<Batch<C>>)
  {
    forall b: nat, c: nat, index | b < c < |batches| && index in batches[b].touched && index in batches[c].touched :: index in base
  }

  ghost predicate ChunkMerged<C>(base: Space<C>, batches: seq<Batch<C>>, committed: nat, unedited: Unedited<C>, index: nat, m: Merged<C>)
  {
    match m.writers
    case One(b) => OnlyWriter(batches, index, b) && index in batches[b].chunks && m.chunk == batches[b].chunks[index]
    case Each(written) =>
      && index in base && m.chunk.owner == base[index].owner && |written| == CHUNK_ROWS && |m.chunk.rows| <= CHUNK_ROWS
      && ForeignMerged(base[index], Group(batches, index), m.chunk.foreign)
      && forall r: nat | r < CHUNK_ROWS ::
           Fold(At(base[index].rows, r), AllVersions(batches, index, r), committed, unedited) == Some(Cell(At(m.chunk.rows, r), written[r]))
  }

  ghost function Touched<C>(batches: seq<Batch<C>>): set<nat>
  {
    set b: nat, index | 0 <= b < |batches| && index in batches[b].touched :: index
  }

  ghost predicate RowClashes<C>(base: Space<C>, batches: seq<Batch<C>>, committed: nat, unedited: Unedited<C>, index: nat, r: nat)
  {
    && index in base && r < CHUNK_ROWS
    && TwoEdit(At(base[index].rows, r), AllVersions(batches, index, r), committed, unedited)
  }

  /** Chunk `index` merged: taken whole from its only writer, or row by row. */
  method MergeIndex<C(!new)>(base: Space<C>, batches: seq<Batch<C>>, committed: nat, unedited: Unedited<C>, index: nat)
    returns (m: Option<Merged<C>>)
    requires Epoch(base, batches, committed) && index in Touched(batches)
    ensures m.None? <==> exists r: nat :: RowClashes(base, batches, committed, unedited, index, r)
    ensures m.Some? ==> ChunkMerged(base, batches, committed, unedited, index, m.value)
  {
    var group := Group(batches, index);
    GroupNone(batches, index);
    if |group| == 1 {
      GroupOne(batches, index);
      OneNeverClashes(base, batches, committed, unedited, index, group[0].0);
      return Some(Merged(group[0].1, One(group[0].0)));
    }
    SeveralCommitted(base, batches, committed, index);
    m := MergeChunk(base[index], group, committed, unedited);
    forall r: nat | r < CHUNK_ROWS
      ensures FoldRow(base[index], group, committed, unedited, r)
           == Fold(At(base[index].rows, r), AllVersions(batches, index, r), committed, unedited)
      ensures FoldRow(base[index], group, committed, unedited, r).None? <==> RowClashes(base, batches, committed, unedited, index, r)
    {
      FoldGroup(At(base[index].rows, r), batches, index, r, committed, unedited);
      FoldIsMerge(At(base[index].rows, r), AllVersions(batches, index, r), committed, unedited);
    }
  }

  lemma {:induction false} OneNeverClashes<C>(base: Space<C>, batches: seq<Batch<C>>, committed: nat, unedited: Unedited<C>, index: nat, b: nat)
    requires OnlyWriter(batches, index, b)
    ensures forall r: nat :: !RowClashes(base, batches, committed, unedited, index, r)
  {
  }

  /** A chunk with two writers is committed, and each holds a copy of it. */
  lemma {:induction false} SeveralCommitted<C>(base: Space<C>, batches: seq<Batch<C>>, committed: nat, index: nat)
    requires Epoch(base, batches, committed) && Group(batches, index) != [] && |Group(batches, index)| != 1
    ensures index in base
    ensures forall k: nat | k < |Group(batches, index)| ::
              Group(batches, index)[k].0 < MAX_BATCHES && CopyOf(base[index], Group(batches, index)[k].1, committed)
  {
    GroupNone(batches, index);
    var b: nat :| b < |batches| && index in batches[b].touched;
    if OnlyWriter(batches, index, b) {
      GroupMany(batches, index, b);
    }
    var c: nat :| c < |batches| && c != b && index in batches[c].touched;
    assert index in base;
    GroupCopies(batches, index);
  }

  lemma {:induction false} GroupCopies<C>(batches: seq<Batch<C>>, index: nat)
    ensures forall k: nat | k < |Group(batches, index)| ::
              var (b, chunk) := Group(batches, index)[k];
              b < |batches| && index in batches[b].touched && index in batches[b].chunks && chunk == batches[b].chunks[index]
  {
    if batches != [] {
      var n := |batches| - 1;
      GroupCopies(batches[..n], index);
    }
  }

  /** Every chunk the batches wrote, merged; `None` when two batches edit one row. */
  method MergeSpace<C(!new)>(base: Space<C>, batches: seq<Batch<C>>, committed: nat, unedited: Unedited<C>)
    returns (r: Option<map<nat, Merged<C>>>)
    requires Epoch(base, batches, committed)
    ensures r.None? <==> exists index, row :: RowClashes(base, batches, committed, unedited, index, row)
    ensures r.Some? ==> r.value.Keys == Touched(batches)
    ensures r.Some? ==> forall index | index in r.value :: ChunkMerged(base, batches, committed, unedited, index, r.value[index])
  {
    var todo: set<nat> := set b: nat, index | 0 <= b < |batches| && index in batches[b].touched :: index;
    var merged: map<nat, Merged<C>> := map[];
    while todo != {}
      invariant todo <= Touched(batches) && merged.Keys == Touched(batches) - todo
      invariant forall index | index in merged :: ChunkMerged(base, batches, committed, unedited, index, merged[index])
      invariant forall index: nat, row: nat | index in merged :: !RowClashes(base, batches, committed, unedited, index, row)
      decreases todo
    {
      var index :| index in todo;
      var m := MergeIndex(base, batches, committed, unedited, index);
      if m.None? {
        return None;
      }
      merged := merged[index := m.value];
      todo := todo - {index};
    }
    forall index: nat, row: nat
      ensures !RowClashes(base, batches, committed, unedited, index, row)
    {
      if index !in merged {
        UntouchedNeverClashes(base, batches, committed, unedited, index, row);
      }
    }
    return Some(merged);
  }

  lemma {:induction false} UntouchedNeverClashes<C>(base: Space<C>, batches: seq<Batch<C>>, committed: nat, unedited: Unedited<C>, index: nat, r: nat)
    requires index !in Touched(batches)
    ensures !RowClashes(base, batches, committed, unedited, index, r)
  {
  }
}
