/**
  Whole runs of edits on a database, lookups among them, against a plain table
  of ops with their operands: whatever was edited and looked up before, the
  uses of a value are those of the plain table.
 */
module UseRuns {
  import opened UseIndex

  datatype Edit =
    | EnterPartition(part: nat)
    | AddValues(chunk: nat, owner: nat)
    | AddOperation(id: nat, part: nat, operands: seq<nat>)
    | SetOperand(id: nat, index: nat, v: nat)
    | SpliceOperands(id: nat, at: nat, remove: nat, insert: seq<nat>)
    | TouchOp(id: nat)
    | KillOp(id: nat)
    | ReplaceUses(was: nat, now: nat)
    | Commit
    | Look(v: nat)

  datatype PlainOp = PlainOp(live: bool, operands: seq<nat>)

  /** The table, the partitions there are and the chunks of values there are. */
  datatype Plain = Plain(ops: map<nat, PlainOp>, parts: set<nat>, chunks: set<nat>)

  const Empty := Plain(map[], {0}, {})

  predicate Live(m: Plain, id: nat) { id in m.ops && m.ops[id].live }

  predicate Exist(m: Plain, values: seq<nat>) { forall v | v in values :: ChunkOf(v) in m.chunks }

  /** What the database asks of its caller. */
  predicate Allowed(m: Plain, e: Edit)
  {
    match e
    case EnterPartition(part) => part !in m.parts
    case AddValues(chunk, _) => chunk !in m.chunks
    case AddOperation(id, part, operands) => id !in m.ops && part in m.parts && Exist(m, operands)
    case SetOperand(id, index, v) => ChunkOf(v) in m.chunks && (Live(m, id) ==> index < |m.ops[id].operands|)
    case SpliceOperands(id, at, remove, insert) => Exist(m, insert) && (Live(m, id) ==> at + remove <= |m.ops[id].operands|)
    case TouchOp(id) => Live(m, id)
    case ReplaceUses(_, now) => ChunkOf(now) in m.chunks
    case _ => true
  }

  function RenamedTable(ops: map<nat, PlainOp>, was: nat, now: nat): map<nat, PlainOp>
  {
    map id | id in ops :: if ops[id].live then PlainOp(true, Renaming(ops[id].operands, was, now)) else ops[id]
  }

  /** What an edit does to the plain table. */
  function Effect(m: Plain, e: Edit): Plain
    requires Allowed(m, e)
  {
    match e
    case EnterPartition(part) => m.(parts := m.parts + {part})
    case AddValues(chunk, _) => m.(chunks := m.chunks + {chunk})
    case AddOperation(id, _, operands) => m.(ops := m.ops[id := PlainOp(true, operands)])
    case SetOperand(id, index, v) =>
      if Live(m, id) then m.(ops := m.ops[id := PlainOp(true, m.ops[id].operands[index := v])]) else m
    case SpliceOperands(id, at, remove, insert) =>
      if Live(m, id) then m.(ops := m.ops[id := PlainOp(true, Spliced(m.ops[id].operands, at, remove, insert))]) else m
    case KillOp(id) => if Live(m, id) then m.(ops := m.ops[id := m.ops[id].(live := false)]) else m
    case ReplaceUses(was, now) =>
      m.(ops := RenamedTable(m.ops, was, now))
    case _ => m
  }

  /** The log of replacements: each one is added, and a commit clears it. */
  function NextLog(log: seq<(nat, nat)>, e: Edit): seq<(nat, nat)>
  {
    match e
    case ReplaceUses(was, now) => log + [(was, now)]
    case Commit => []
    case _ => log
  }

  function LogOf(log: seq<(nat, nat)>, edits: seq<Edit>): seq<(nat, nat)>
    decreases |edits|
  {
    if edits == [] then log else LogOf(NextLog(log, edits[0]), edits[1..])
  }

  ghost predicate AllAllowed(m: Plain, edits: seq<Edit>)
    decreases |edits|
  {
    edits == [] || (Allowed(m, edits[0]) && AllAllowed(Effect(m, edits[0]), edits[1..]))
  }

  ghost function Play(m: Plain, edits: seq<Edit>): Plain
    requires AllAllowed(m, edits)
    decreases |edits|
  {
    if edits == [] then m else Play(Effect(m, edits[0]), edits[1..])
  }

  /** A live slot of the plain table. */
  predicate PlainSlot(m: Plain, e: Entry) { Live(m, e.owner) && e.index < |m.ops[e.owner].operands| && m.ops[e.owner].operands[e.index] == e.cell }

  // ----- The database shows the table.

  function PlainOf(ops: Ops): map<nat, PlainOp> { map id | id in ops :: PlainOp(ops[id].live, ops[id].operands) }

  ghost predicate Shows(db: Db, m: Plain)
    reads db
  {
    db.Valid() && PlainOf(db.ops) == m.ops && db.parts.Keys == m.parts && db.values.Keys == m.chunks
  }

  lemma {:induction false} PutShows(ops: Ops, id: nat, op: Op)
    ensures PlainOf(ops[id := op]) == PlainOf(ops)[id := PlainOp(op.live, op.operands)]
  {
  }

  lemma {:induction false} SameShows(ops: Ops, id: nat)
    requires id in ops
    ensures PlainOf(ops)[id := PlainOp(ops[id].live, ops[id].operands)] == PlainOf(ops)
  {
  }

  lemma {:induction false} RenameShows(before: Ops, after: Ops, was: nat, now: nat)
    requires Renamed(before, after, was, now)
    ensures PlainOf(after) == RenamedTable(PlainOf(before), was, now)
  {
    forall id | id in before
      ensures PlainOp(after[id].live, after[id].operands)
           == if before[id].live then PlainOp(true, Renaming(before[id].operands, was, now)) else PlainOp(before[id].live, before[id].operands)
    {
      assert OpRewritten(before[id], after[id], was, now);
    }
  }

  method Add(db: Db, ghost m: Plain, e: Edit)
    requires (e.EnterPartition? || e.AddValues? || e.AddOperation?) && Shows(db, m) && Allowed(m, e)
    modifies db
    ensures Shows(db, Effect(m, e)) && db.retargets == NextLog(old(db.retargets), e)
  {
    if e.EnterPartition? {
      db.EnterPartition(e.part);
    } else if e.AddValues? {
      db.AddValues(e.chunk, e.owner);
    } else {
      PutShows(db.ops, e.id, Op(e.part, true, db.tick, e.operands));
      db.AddOperation(e.id, e.part, e.operands);
    }
  }

  method Rewrite(db: Db, ghost m: Plain, e: Edit)
    requires (e.SetOperand? || e.SpliceOperands?) && Shows(db, m) && Allowed(m, e)
    modifies db
    ensures Shows(db, Effect(m, e)) && db.retargets == NextLog(old(db.retargets), e)
  {
    if e.SetOperand? {
      if e.id in db.ops && db.ops[e.id].live {
        PutShows(db.ops, e.id, Rewritten(db.ops[e.id], db.tick, db.ops[e.id].operands[e.index := e.v]));
      }
      var _ := db.SetOperand(e.id, e.index, e.v);
    } else {
      if e.id in db.ops && db.ops[e.id].live {
        PutShows(db.ops, e.id, Rewritten(db.ops[e.id], db.tick, Spliced(db.ops[e.id].operands, e.at, e.remove, e.insert)));
      }
      var _ := db.SpliceOperands(e.id, e.at, e.remove, e.insert);
    }
  }

  method Touch(db: Db, ghost m: Plain, e: Edit)
    requires (e.TouchOp? || e.KillOp?) && Shows(db, m) && Allowed(m, e)
    modifies db
    ensures Shows(db, Effect(m, e)) && db.retargets == NextLog(old(db.retargets), e)
  {
    if e.TouchOp? {
      PutShows(db.ops, e.id, db.ops[e.id].(stamp := db.tick));
      SameShows(db.ops, e.id);
      db.TouchOp(e.id);
    } else {
      if e.id in db.ops && db.ops[e.id].live {
        PutShows(db.ops, e.id, db.ops[e.id].(stamp := db.tick, live := false));
      }
      db.KillOp(e.id);
    }
  }

  method Replace(db: Db, ghost m: Plain, e: Edit)
    requires e.ReplaceUses? && Shows(db, m) && Allowed(m, e)
    modifies db
    ensures Shows(db, Effect(m, e)) && db.retargets == NextLog(old(db.retargets), e)
  {
    ghost var before := db.ops;
    db.ReplaceValueUses(e.was, e.now);
    RenameShows(before, db.ops, e.was, e.now);
  }

  method Make(db: Db, ghost m: Plain, e: Edit)
    requires Shows(db, m) && Allowed(m, e)
    modifies db
    ensures Shows(db, Effect(m, e)) && db.retargets == NextLog(old(db.retargets), e)
  {
    if e.EnterPartition? || e.AddValues? || e.AddOperation? {
      Add(db, m, e);
    } else if e.SetOperand? || e.SpliceOperands? {
      Rewrite(db, m, e);
    } else if e.Commit? {
      db.Commit();
    } else if e.Look? {
      var _ := db.Uses(e.v);
    } else if e.ReplaceUses? {
      Replace(db, m, e);
    } else {
      Touch(db, m, e);
    }
  }

  /** A run of edits from any database shows the table the edits make of the one it showed. */
  method RunFrom(db: Db, ghost m0: Plain, edits: seq<Edit>)
    requires Shows(db, m0) && AllAllowed(m0, edits)
    modifies db
    ensures Shows(db, Play(m0, edits)) && db.retargets == LogOf(old(db.retargets), edits)
  {
    ghost var m, log := m0, db.retargets;
    for i := 0 to |edits|
      invariant Shows(db, m) && AllAllowed(m, edits[i..]) && Play(m, edits[i..]) == Play(m0, edits)
      invariant LogOf(db.retargets, edits[i..]) == LogOf(log, edits)
    {
      assert edits[i..][1..] == edits[i + 1..];
      Make(db, m, edits[i]);
      m := Effect(m, edits[i]);
    }
  }

  /** A run of edits from an empty database shows the table the edits make. */
  method Run(edits: seq<Edit>) returns (db: Db)
    requires AllAllowed(Empty, edits)
    ensures fresh(db) && Shows(db, Play(Empty, edits)) && db.retargets == LogOf([], edits)
  {
    db := new Db();
    RunFrom(db, Empty, edits);
  }

  /** After any run the uses of a value, each once, are exactly the slots of the plain table holding it. */
  method UsesAfter(edits: seq<Edit>, v: nat) returns (found: seq<Entry>)
    requires AllAllowed(Empty, edits)
    ensures NoneTwice(found)
    ensures forall e: Entry :: e in found <==> e.cell == v && PlainSlot(Play(Empty, edits), e)
  {
    var db := Run(edits);
    found := db.Uses(v);
    SlotsShow(db.ops, Play(Empty, edits));
  }

  lemma {:induction false} SlotsShow(ops: Ops, m: Plain)
    requires PlainOf(ops) == m.ops
    ensures forall e: Entry :: Slot(ops, e) <==> PlainSlot(m, e)
  {
  }
}
