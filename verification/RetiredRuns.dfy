/**
  A batch that never names a value once it retired it reaches its commit with
  no live op naming it: what the merge asks of the batch, from its edits.
 */
module RetiredRuns {
  import opened SpaceMerge
  import opened EpochMerge
  import opened EpochTheorems
  import opened ReplacementTheorems
  import opened UseRuns
  import R = Replacements
  import U = UseIndex

  /** The values an edit puts into operands. */
  function Named(e: Edit): set<nat>
  {
    match e
    case AddOperation(_, _, operands) => set v | v in operands
    case SetOperand(_, _, v) => {v}
    case SpliceOperands(_, _, _, insert) => set v | v in insert
    case ReplaceUses(_, now) => {now}
    case _ => {}
  }

  /** No edit names a value that is retired, nor replaces one by itself. */
  ghost predicate Obeys(log: R.Log, edits: seq<Edit>)
    decreases |edits|
  {
    edits == [] || (Named(edits[0]) !! R.Retired(NextLog(log, edits[0])) && Obeys(NextLog(log, edits[0]), edits[1..]))
  }

  ghost predicate NamesNone(m: Plain, retired: set<nat>)
  {
    forall id: nat, k: nat | Live(m, id) && k < |m.ops[id].operands| :: m.ops[id].operands[k] !in retired
  }

  lemma {:induction false} RetiredNext(log: R.Log, e: Edit)
    ensures R.Retired(NextLog(log, e)) == if e.ReplaceUses? then R.Retired(log) + {e.was} else if e.Commit? then {} else R.Retired(log)
  {
    if e.ReplaceUses? {
      var more := log + [(e.was, e.now)];
      assert forall p | p in log :: p in more;
      assert (e.was, e.now) in more;
    }
  }

  lemma {:induction false} EditKeepsOut(m: Plain, e: Edit, retired: set<nat>, next: set<nat>)
    requires Allowed(m, e) && NamesNone(m, retired) && Named(e) !! next
    requires next == if e.ReplaceUses? then retired + {e.was} else if e.Commit? then {} else retired
    ensures NamesNone(Effect(m, e), next)
  {
    var after := Effect(m, e);
    forall id: nat, k: nat | Live(after, id) && k < |after.ops[id].operands|
      ensures after.ops[id].operands[k] !in next
    {
      match e
      case ReplaceUses(was, now) =>
        assert Live(m, id) && after.ops[id].operands == U.Renaming(m.ops[id].operands, was, now);
      case _ =>
    }
  }

  /** A run that obeys ends with no live op naming a retired value. */
  lemma {:induction false} ObeyingRun(m: Plain, log: R.Log, edits: seq<Edit>)
    requires AllAllowed(m, edits) && Obeys(log, edits) && NamesNone(m, R.Retired(log))
    ensures NamesNone(Play(m, edits), R.Retired(LogOf(log, edits)))
    decreases |edits|
  {
    if edits != [] {
      var e := edits[0];
      RetiredNext(log, e);
      EditKeepsOut(m, e, R.Retired(log), R.Retired(NextLog(log, e)));
      ObeyingRun(Effect(m, e), NextLog(log, e), edits[1..]);
    }
  }

  /** A batch's database, run through edits that obey, names nothing it retired. */
  method RunBatch(db: U.Db, ghost m: Plain, edits: seq<Edit>)
    requires Shows(db, m) && AllAllowed(m, edits) && db.retargets == [] && Obeys([], edits)
    modifies db
    ensures Shows(db, Play(m, edits)) && db.retargets == LogOf([], edits)
    ensures forall e: U.Entry | U.Slot(db.ops, e) :: e.cell !in R.Retired(db.retargets)
  {
    RunFrom(db, m, edits);
    assert R.Retired([]) == {};
    ObeyingRun(m, [], edits);
    SlotsShow(db.ops, Play(m, edits));
  }

  /** The rows of the op space are the ops of the table. */
  ghost predicate TableIs(space: Space<OpCells>, m: Plain)
  {
    forall index: nat, r: nat | RowAt(space, index, r).Some? && RowAt(space, index, r).value.live ::
      var id := index * CHUNK_ROWS + r;
      Live(m, id) && m.ops[id].operands == RowAt(space, index, r).value.cells.operands
  }

  /** A task that starts from any table with an empty log and obeys gives the merge what it asks. */
  lemma {:induction false} ObeyingBatch(base: Space<OpCells>, task: Task, m: Plain, edits: seq<Edit>)
    requires AllAllowed(m, edits) && Obeys([], edits)
    requires TableIs(task.ops.chunks, Play(m, edits)) && task.retargets == LogOf([], edits)
    requires forall index: nat | index !in task.ops.touched && index in base :: index in task.ops.chunks && task.ops.chunks[index] == base[index]
    ensures NamesNoRetired(base, task)
  {
    assert R.Retired([]) == {};
    ObeyingRun(m, [], edits);
    forall index: nat, r: nat | RowAt(task.ops.chunks, index, r).Some?
      ensures Names(RowAt(task.ops.chunks, index, r).value) !! R.Retired(task.retargets)
    {
      var row := RowAt(task.ops.chunks, index, r).value;
      if row.live {
        var id := index * CHUNK_ROWS + r;
        assert Live(Play(m, edits), id) && Play(m, edits).ops[id].operands == row.cells.operands;
      }
    }
  }
}
