/** What a commit guarantees about every row, whatever the order of the batches. */
module EpochTheorems {
  import opened Options
  import opened SpaceMerge
  import opened EpochMerge
  import opened EpochCommit
  import Seqs

  ghost function RowAt<C>(space: Space<C>, index: nat, r: nat): Option<Row<C>>
  {
    if index in space then At(space[index].rows, r) else None
  }

  ghost predicate NeverUnedited<C(!new)>(unedited: Unedited<C>) { forall b, x, y :: !unedited(b, x, y) }

  ghost predicate BatchWrote<C>(batch: Batch<C>, index: nat, r: nat, committed: nat)
  {
    Wrote(Version(batch, index, r), committed)
  }

  // ----- A three-way merge, row by row.

  /** A row is its one writer's version, or the base's when nobody wrote it. */
  ghost predicate ThreeWay<C>(base: Space<C>, batches: seq<Batch<C>>, committed: nat, out: Space<C>, index: nat, r: nat)
  {
    && (forall b | b in batches && BatchWrote(b, index, r, committed) :: RowAt(out, index, r) == Version(b, index, r))
    && ((forall b | b in batches :: !BatchWrote(b, index, r, committed)) ==> RowAt(out, index, r) == RowAt(base, index, r))
  }

  lemma {:induction false} MergeIsThreeWay<C(!new)>(base: Space<C>, batches: seq<Batch<C>>, committed: nat, unedited: Unedited<C>, out: Space<C>, index: nat, r: nat)
    requires Epoch(base, batches, committed) && NeverUnedited(unedited)
    requires SpaceMerged(base, batches, committed, unedited, out)
    ensures ThreeWay(base, batches, committed, out, index, r)
  {
    if index in Touched(batches) {
      var w: Writers :| ChunkMerged(base, batches, committed, unedited, index, Merged(out[index], w));
      if w.One? {
        OneIsThreeWay(base, batches, committed, out, index, r, w.batch);
      } else {
        EachIsThreeWay(base, batches, committed, unedited, out, index, r, w.written);
      }
    } else {
      assert forall b | b in batches :: index !in b.touched;
    }
  }

  lemma {:induction false} OneIsThreeWay<C>(base: Space<C>, batches: seq<Batch<C>>, committed: nat, out: Space<C>, index: nat, r: nat, b: nat)
    requires Epoch(base, batches, committed)
    requires OnlyWriter(batches, index, b) && index in out && out[index] == batches[b].chunks[index]
    ensures ThreeWay(base, batches, committed, out, index, r)
  {
    forall x | x in batches && index in x.touched
      ensures x == batches[b]
    {
    }
    assert Version(batches[b], index, r) == RowAt(out, index, r);
    if !BatchWrote(batches[b], index, r, committed) {
      UnwrittenIsBase(base, batches, committed, index, r, b);
    } else {
      assert batches[b] in batches;
    }
  }

  /** A row a batch did not write, in a chunk it did write, is the base's. */
  lemma {:induction false} UnwrittenIsBase<C>(base: Space<C>, batches: seq<Batch<C>>, committed: nat, index: nat, r: nat, b: nat)
    requires Epoch(base, batches, committed) && b < |batches| && index in batches[b].touched
    requires !BatchWrote(batches[b], index, r, committed)
    ensures Version(batches[b], index, r) == RowAt(base, index, r)
  {
  }

  lemma {:induction false} EachIsThreeWay<C(!new)>(base: Space<C>, batches: seq<Batch<C>>, committed: nat, unedited: Unedited<C>, out: Space<C>, index: nat, r: nat, written: seq<nat>)
    requires Epoch(base, batches, committed) && NeverUnedited(unedited) && index in out
    requires ChunkMerged(base, batches, committed, unedited, index, Merged(out[index], Each(written)))
    ensures ThreeWay(base, batches, committed, out, index, r)
  {
    var versions := AllVersions(batches, index, r);
    forall i: nat | i < |batches|
      ensures EditsAt(At(base[index].rows, r), versions, committed, unedited, i) <==> BatchWrote(batches[i], index, r, committed)
    {
    }
    if r < CHUNK_ROWS {
      FoldIsMerge(At(base[index].rows, r), versions, committed, unedited);
    } else {
      NoneBeyond(base, batches, committed, index, r);
    }
    forall b | b in batches && BatchWrote(b, index, r, committed)
      ensures RowAt(out, index, r) == Version(b, index, r)
    {
      var i: nat :| i < |batches| && batches[i] == b;
      assert EditsAt(At(base[index].rows, r), versions, committed, unedited, i);
    }
  }

  lemma {:induction false} NoneBeyond<C>(base: Space<C>, batches: seq<Batch<C>>, committed: nat, index: nat, r: nat)
    requires Epoch(base, batches, committed) && index in base && r >= CHUNK_ROWS
    ensures RowAt(base, index, r) == None && forall b | b in batches :: !BatchWrote(b, index, r, committed)
  {
  }

  // ----- The order of the batches does not matter.

  ghost predicate SameRows<C>(x: Space<C>, y: Space<C>)
  {
    x.Keys == y.Keys && forall index: nat, r: nat :: RowAt(x, index, r) == RowAt(y, index, r)
  }

  /** Reordering the batches changes no row. */
  lemma {:induction false} OrderFree<C(!new)>(base: Space<C>, a: seq<Batch<C>>, b: seq<Batch<C>>, committed: nat, editA: Unedited<C>, editB: Unedited<C>, outA: Space<C>, outB: Space<C>)
    requires multiset(a) == multiset(b) && NeverUnedited(editA) && NeverUnedited(editB)
    requires Epoch(base, a, committed) && Epoch(base, b, committed)
    requires SpaceMerged(base, a, committed, editA, outA) && SpaceMerged(base, b, committed, editB, outB)
    ensures SameRows(outA, outB)
  {
    SameMembers(a, b);
    TouchedOrderFree(a, b);
    forall index: nat, r: nat
      ensures RowAt(outA, index, r) == RowAt(outB, index, r)
    {
      MergeIsThreeWay(base, a, committed, editA, outA, index, r);
      MergeIsThreeWay(base, b, committed, editB, outB, index, r);
      ThreeWayDetermines(base, a, b, committed, outA, outB, index, r);
    }
  }

  lemma {:induction false} SameMembers<T>(a: seq<T>, b: seq<T>)
    requires multiset(a) == multiset(b)
    ensures forall x :: x in a <==> x in b
  {
    forall x
      ensures x in a <==> x in b
    {
      assert x in a <==> x in multiset(a);
      assert x in b <==> x in multiset(b);
    }
  }

  lemma {:induction false} ThreeWayDetermines<C>(base: Space<C>, a: seq<Batch<C>>, b: seq<Batch<C>>, committed: nat, outA: Space<C>, outB: Space<C>, index: nat, r: nat)
    requires forall x :: x in a <==> x in b
    requires ThreeWay(base, a, committed, outA, index, r) && ThreeWay(base, b, committed, outB, index, r)
    ensures RowAt(outA, index, r) == RowAt(outB, index, r)
  {
  }

  lemma {:induction false} TouchedOrderFree<C>(a: seq<Batch<C>>, b: seq<Batch<C>>)
    requires forall x :: x in a <==> x in b
    ensures Touched(a) == Touched(b)
  {
    forall index: nat
      ensures index in Touched(a) <==> index in Touched(b)
    {
      SameTouched(a, b, index);
      SameTouched(b, a, index);
    }
  }

  lemma {:induction false} SameTouched<C>(a: seq<Batch<C>>, b: seq<Batch<C>>, index: nat)
    requires forall x | x in a :: x in b
    ensures index in Touched(a) ==> index in Touched(b)
  {
    if index in Touched(a) {
      var i: nat :| i < |a| && index in a[i].touched;
      assert a[i] in b;
    }
  }

  lemma {:induction false} ClashOrderFree<C(!new)>(base: Space<C>, a: seq<Batch<C>>, b: seq<Batch<C>>, committed: nat, unedited: Unedited<C>)
    requires multiset(a) == multiset(b) && NeverUnedited(unedited)
    ensures Clash(base, a, committed, unedited) ==> Clash(base, b, committed, unedited)
  {
    if index, r :| RowClashes(base, a, committed, unedited, index, r) {
      var row := At(base[index].rows, r);
      var i: nat, j: nat :| i < j < |a| &&
        EditsAt(row, AllVersions(a, index, r), committed, unedited, i) && EditsAt(row, AllVersions(a, index, r), committed, unedited, j);
      var k, l := Seqs.TwoPlaces(a, b, i, j);
      assert EditsAt(row, AllVersions(b, index, r), committed, unedited, k);
      assert EditsAt(row, AllVersions(b, index, r), committed, unedited, l);
      assert RowClashes(base, b, committed, unedited, index, r);
    }
  }

  // ----- Ops when no batch replaced a use.

  lemma {:induction false} NoReplacements(base: Space<OpCells>, tasks: seq<Task>, committed: nat, out: Space<OpCells>)
    requires forall i: nat | i < |tasks| :: tasks[i].retargets == []
    ensures NeverUnedited(UneditedBy(MapsOf(tasks)))
    ensures OpsMerged(base, tasks, committed, out) ==>
              SpaceMerged(base, OpBatches(tasks), committed, UneditedBy(MapsOf(tasks)), out)
  {
    var maps := MapsOf(tasks);
    assert !Retargeted(maps);
    if OpsMerged(base, tasks, committed, out) {
      forall index | index in Touched(OpBatches(tasks))
        ensures exists w: Writers :: ChunkMerged(base, OpBatches(tasks), committed, UneditedBy(maps), index, Merged(out[index], w))
      {
        assert OpChunkMerged(base, tasks, committed, index, out[index]);
        var m :| ChunkMerged(base, OpBatches(tasks), committed, UneditedBy(maps), index, m) && Replaced(maps, committed, m, out[index]);
        ReplacedNothing(maps, committed, m, out[index]);
        assert Merged(out[index], m.writers) == m;
      }
    }
  }

  lemma {:induction false} ReplacedNothing(maps: Maps, committed: nat, m: Merged<OpCells>, out: Chunk<OpCells>)
    requires !Retargeted(maps) && Replaced(maps, committed, m, out)
    ensures out == m.chunk
  {
    forall r: nat | r < |out.rows|
      ensures out.rows[r] == m.chunk.rows[r]
    {
      ReplaceRowNothing(maps, RowWriter(m.writers, m.chunk.rows[r].stamp, r, committed), m.chunk.rows[r]);
    }
  }

  // ----- Whole commits.

  lemma {:induction false} OpsClashOrderFree(base: Space<OpCells>, a: seq<Task>, b: seq<Task>, committed: nat)
    requires multiset(a) == multiset(b) && OpsClash(base, a, committed)
    ensures OpsClash(base, b, committed)
  {
    var editA, editB := UneditedBy(MapsOf(a)), UneditedBy(MapsOf(b));
    var index, r :| RowClashes(base, OpBatches(a), committed, editA, index, r);
    var row := At(base[index].rows, r);
    var versA, versB := AllVersions(OpBatches(a), index, r), AllVersions(OpBatches(b), index, r);
    var i: nat, j: nat :| i < j < |a| && EditsAt(row, versA, committed, editA, i) && EditsAt(row, versA, committed, editA, j);
    var k, l := Seqs.TwoPlaces(a, b, i, j);
    RetargetedOrderFree(b, a);
    SameEdit(base, a, b, committed, index, r, i, k);
    SameEdit(base, a, b, committed, index, r, j, l);
    assert RowClashes(base, OpBatches(b), committed, editB, index, r);
  }

  lemma {:induction false} RetargetedOrderFree(a: seq<Task>, b: seq<Task>)
    requires multiset(a) == multiset(b)
    ensures Retargeted(MapsOf(a)) ==> Retargeted(MapsOf(b))
  {
    SameMembers(a, b);
    if i: nat :| i < |a| && MapsOf(a)[i] != map[] {
      assert a[i] in b;
      var k: nat :| k < |b| && b[k] == a[i];
      assert MapsOf(b)[k] != map[];
    }
  }

  lemma {:induction false} SameEdit(base: Space<OpCells>, a: seq<Task>, b: seq<Task>, committed: nat, index: nat, r: nat, i: nat, k: nat)
    requires index in base && i < |a| && k < |b| && a[i] == b[k] && (Retargeted(MapsOf(b)) ==> Retargeted(MapsOf(a)))
    requires EditsAt(At(base[index].rows, r), AllVersions(OpBatches(a), index, r), committed, UneditedBy(MapsOf(a)), i)
    ensures EditsAt(At(base[index].rows, r), AllVersions(OpBatches(b), index, r), committed, UneditedBy(MapsOf(b)), k)
  {
  }

  lemma {:induction false} DisjointOrderFree(base: Spaces, a: seq<Task>, b: seq<Task>, committed: nat)
    requires multiset(a) == multiset(b) && Disjoint(base, a, committed)
    ensures Disjoint(base, b, committed)
  {
    if OpsClash(base.ops, b, committed) {
      OpsClashOrderFree(base.ops, b, a, committed);
    }
    BatchesReorder(a, b);
    ClashOrderFree(base.values, ValueBatches(b), ValueBatches(a), committed, Never());
    ClashOrderFree(base.regions, RegionBatches(b), RegionBatches(a), committed, Never());
    ClashOrderFree(base.blocks, BlockBatches(b), BlockBatches(a), committed, Never());
  }

  lemma {:induction false} BatchesReorder(a: seq<Task>, b: seq<Task>)
    requires multiset(a) == multiset(b)
    ensures multiset(OpBatches(a)) == multiset(OpBatches(b))
    ensures multiset(ValueBatches(a)) == multiset(ValueBatches(b))
    ensures multiset(RegionBatches(a)) == multiset(RegionBatches(b))
    ensures multiset(BlockBatches(a)) == multiset(BlockBatches(b))
  {
    Seqs.ReorderedImages(a, b, (t: Task) => t.ops, OpBatches(a), OpBatches(b));
    Seqs.ReorderedImages(a, b, (t: Task) => t.values, ValueBatches(a), ValueBatches(b));
    Seqs.ReorderedImages(a, b, (t: Task) => t.regions, RegionBatches(a), RegionBatches(b));
    Seqs.ReorderedImages(a, b, (t: Task) => t.blocks, BlockBatches(a), BlockBatches(b));
  }

  /** Without use replacements a reordered commit gives every space the same rows. */
  lemma {:induction false} CommitOrderFree(base: Spaces, a: seq<Task>, b: seq<Task>, committed: nat, outA: Spaces, outB: Spaces)
    requires multiset(a) == multiset(b) && forall i: nat | i < |a| :: a[i].retargets == []
    requires Epochs(base, a, committed) && Epochs(base, b, committed)
    requires AllMerged(base, a, committed, outA) && AllMerged(base, b, committed, outB)
    ensures SameRows(outA.ops, outB.ops) && SameRows(outA.values, outB.values)
    ensures SameRows(outA.regions, outB.regions) && SameRows(outA.blocks, outB.blocks)
  {
    OpsOrderFree(base.ops, a, b, committed, outA.ops, outB.ops);
    BatchesReorder(a, b);
    CellsOrderFree(base.values, ValueBatches(a), ValueBatches(b), committed, outA.values, outB.values);
    CellsOrderFree(base.regions, RegionBatches(a), RegionBatches(b), committed, outA.regions, outB.regions);
    CellsOrderFree(base.blocks, BlockBatches(a), BlockBatches(b), committed, outA.blocks, outB.blocks);
  }

  /** Every count a commit moves comes out the same. */
  lemma {:induction false} TotalOrderFree(was: nat, a: seq<Task>, b: seq<Task>, f: Task -> int)
    requires multiset(a) == multiset(b)
    ensures Total(was, a, f) == Total(was, b, f)
  {
    SumOrderFree(a, b, f);
  }

  lemma {:induction false} CellsOrderFree(base: Space<Cells>, a: seq<Batch<Cells>>, b: seq<Batch<Cells>>, committed: nat, outA: Space<Cells>, outB: Space<Cells>)
    requires multiset(a) == multiset(b) && Epoch(base, a, committed) && Epoch(base, b, committed)
    requires SpaceMerged(base, a, committed, Never(), outA) && SpaceMerged(base, b, committed, Never(), outB)
    ensures SameRows(outA, outB)
  {
    OrderFree(base, a, b, committed, Never(), Never(), outA, outB);
  }

  lemma {:induction false} NoneRetargets(a: seq<Task>, b: seq<Task>)
    requires multiset(a) == multiset(b) && forall i: nat | i < |a| :: a[i].retargets == []
    ensures forall i: nat | i < |b| :: b[i].retargets == []
  {
    SameMembers(a, b);
    forall i: nat | i < |b|
      ensures b[i].retargets == []
    {
      assert b[i] in a;
    }
  }

  lemma {:induction false} OpsOrderFree(base: Space<OpCells>, a: seq<Task>, b: seq<Task>, committed: nat, outA: Space<OpCells>, outB: Space<OpCells>)
    requires multiset(a) == multiset(b) && forall i: nat | i < |a| :: a[i].retargets == []
    requires Epoch(base, OpBatches(a), committed) && Epoch(base, OpBatches(b), committed)
    requires OpsMerged(base, a, committed, outA) && OpsMerged(base, b, committed, outB)
    ensures SameRows(outA, outB)
  {
    NoneRetargets(a, b);
    NoReplacements(base, a, committed, outA);
    NoReplacements(base, b, committed, outB);
    BatchesReorder(a, b);
    OrderFree(base, OpBatches(a), OpBatches(b), committed, UneditedBy(MapsOf(a)), UneditedBy(MapsOf(b)), outA, outB);
  }
}
