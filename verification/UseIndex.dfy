/**
  The use lists of the store: per partition a base built at some stamp, a tail
  of what was written since, and a log of the ops the tail has not read yet. A
  lookup refreshes the partitions that may name the value and reads both.
 */
module UseIndex {
  import opened Options
  import opened ForeignSets
  import opened Seqs

  const CHUNK_ROWS: nat := 4096
  const MIN_TAIL: nat := 64
  const REBUILD_DIVISOR: nat := 8

  datatype Op = Op(part: nat, live: bool, stamp: nat, operands: seq<nat>)

  type Ops = map<nat, Op>

  /** One operand slot holding a value. */
  datatype Entry = Entry(cell: nat, owner: nat, index: nat)

  datatype Grouping = Grouping(base: set<Entry>, built: Option<nat>, tail: set<Entry>)

  datatype Part = Part(uses: Grouping, opLog: seq<nat>)

  const NoPart := Part(Grouping({}, None, {}), [])

  function ChunkOf(id: nat): nat { id / CHUNK_ROWS }

  /** The entries an op contributes: one per operand, none once erased. */
  function EntriesOf(owner: nat, op: Op): (r: set<Entry>)
    ensures forall e: Entry :: e in r <==> e.owner == owner && op.live && e.index < |op.operands| && op.operands[e.index] == e.cell
  {
    if op.live then set i: nat | 0 <= i < |op.operands| :: Entry(op.operands[i], owner, i) else {}
  }

  /** A live operand slot, as a full scan sees it. */
  predicate Slot(ops: Ops, e: Entry)
  {
    e.owner in ops && ops[e.owner].live && e.index < |ops[e.owner].operands| && ops[e.owner].operands[e.index] == e.cell
  }

  // ----- One grouping.

  predicate InPart(ops: Ops, p: nat, owner: nat) { owner in ops && ops[owner].part == p }

  /** Whether the grouping has the entry: from the base if its owner is not written since, else from the tail. */
  predicate Has(ops: Ops, g: Grouping, e: Entry)
    requires g.built.Some? && e.owner in ops
  {
    if ops[e.owner].stamp <= g.built.value then e in g.base else e in g.tail
  }

  /** The grouping knows every slot of the partition but those of the owners in `log`. */
  ghost predicate Knows(ops: Ops, p: nat, g: Grouping, log: seq<nat>)
  {
    g.built.Some? ==>
      forall e: Entry | InPart(ops, p, e.owner) && e.owner !in log :: Has(ops, g, e) <==> Slot(ops, e)
  }

  /** Every entry is of the partition, and a tail entry's owner is stamped after the base. */
  ghost predicate Placed(ops: Ops, p: nat, g: Grouping)
  {
    && (forall e | e in g.base :: InPart(ops, p, e.owner))
    && (forall e | e in g.tail :: InPart(ops, p, e.owner) && g.built.Some? && ops[e.owner].stamp > g.built.value)
  }

  /** The log has every owner stamped now, and none stamped before the base. */
  ghost predicate Logged(ops: Ops, p: nat, part: Part, tick: nat)
  {
    && (forall owner | InPart(ops, p, owner) && ops[owner].stamp == tick :: owner in part.opLog)
    && (forall owner | owner in part.opLog ::
          InPart(ops, p, owner) && (part.uses.built.Some? ==> ops[owner].stamp > part.uses.built.value))
    && (part.uses.built.Some? ==> part.uses.built.value < tick)
  }

  ghost predicate PartValid(ops: Ops, p: nat, part: Part, tick: nat)
  {
    Knows(ops, p, part.uses, part.opLog) && Placed(ops, p, part.uses) && Logged(ops, p, part, tick)
  }

  /** The owners in `log` read again. */
  function Reread(ops: Ops, tail: set<Entry>, log: seq<nat>): (r: set<Entry>)
    ensures forall e :: e in r <==> (e in tail && e.owner !in log) || (e.owner in log && Slot(ops, e))
  {
    assert forall e: Entry | Slot(ops, e) :: e in EntriesOf(e.owner, ops[e.owner]);
    var kept := set e | e in tail && e.owner !in log;
    var now := set owner, e | owner in log && owner in ops && e in EntriesOf(owner, ops[owner]) :: e;
    kept + now
  }

  function Fold(ops: Ops, g: Grouping, stamp: nat): Grouping
    requires g.built.Some?
  {
    Grouping((set e | e in g.base && e.owner in ops && ops[e.owner].stamp <= g.built.value) + g.tail, Some(stamp), {})
  }

  function Rebuild(ops: Ops, p: nat, stamp: nat): (g: Grouping)
    ensures g.built == Some(stamp) && g.tail == {}
    ensures forall e :: e in g.base <==> InPart(ops, p, e.owner) && Slot(ops, e)
  {
    assert forall e: Entry | Slot(ops, e) :: e in EntriesOf(e.owner, ops[e.owner]);
    var base := set owner, e | owner in ops && ops[owner].part == p && e in EntriesOf(owner, ops[owner]) :: e;
    Grouping(base, Some(stamp), {})
  }

  /** Whether the tail outgrew its share of the base. */
  predicate Outgrown(g: Grouping) { |g.tail| > MIN_TAIL && |g.tail| > |g.base| / REBUILD_DIVISOR }

  /** The grouping brought up to date with the owners in `log`. */
  function Refresh(ops: Ops, p: nat, g: Grouping, log: seq<nat>, stamp: nat): Grouping
  {
    if g.built.None? then Rebuild(ops, p, stamp)
    else if log == [] then g
    else
      var read := g.(tail := Reread(ops, g.tail, log));
      if Outgrown(read) then Fold(ops, read, stamp) else read
  }

  function Read(ops: Ops, g: Grouping, v: nat): set<Entry>
    requires g.built.Some?
  {
    (set e | e in g.base && e.cell == v && e.owner in ops && ops[e.owner].stamp <= g.built.value)
    + (set e | e in g.tail && e.cell == v)
  }

  lemma {:induction false} RereadKnows(ops: Ops, p: nat, g: Grouping, log: seq<nat>)
    requires g.built.Some? && Knows(ops, p, g, log) && Placed(ops, p, g)
    requires forall owner | owner in log :: InPart(ops, p, owner) && ops[owner].stamp > g.built.value
    ensures Knows(ops, p, g.(tail := Reread(ops, g.tail, log)), []) && Placed(ops, p, g.(tail := Reread(ops, g.tail, log)))
  {
  }

  lemma {:induction false} FoldKnows(ops: Ops, p: nat, g: Grouping, stamp: nat)
    requires g.built.Some? && Knows(ops, p, g, []) && Placed(ops, p, g)
    requires forall owner | InPart(ops, p, owner) :: ops[owner].stamp <= stamp
    ensures Knows(ops, p, Fold(ops, g, stamp), []) && Placed(ops, p, Fold(ops, g, stamp))
  {
  }

  /** A refresh reads every logged owner, whichever way it goes. */
  lemma {:induction false} RefreshKnows(ops: Ops, p: nat, part: Part, tick: nat)
    requires PartValid(ops, p, part, tick) && forall owner | owner in ops :: ops[owner].stamp <= tick
    ensures PartValid(ops, p, Part(Refresh(ops, p, part.uses, part.opLog, tick), []), tick + 1)
    ensures Refresh(ops, p, part.uses, part.opLog, tick).built.Some?
  {
    var g := part.uses;
    if g.built.Some? && part.opLog != [] {
      RereadKnows(ops, p, g, part.opLog);
      var read := g.(tail := Reread(ops, g.tail, part.opLog));
      FoldKnows(ops, p, read, tick);
    }
  }

  /** The tail is short, or an eighth of the base at most. */
  ghost predicate TailBounded(base: set<Entry>, tail: set<Entry>) { |tail| <= 64 || 8 * |tail| <= |base| }

  /** A refresh keeps the tail so bounded, and gives an index that has a base a new one only for that. */
  lemma {:induction false} RefreshBounds(ops: Ops, p: nat, g: Grouping, log: seq<nat>, stamp: nat)
    requires g.built.Some? ==> TailBounded(g.base, g.tail)
    ensures var r := Refresh(ops, p, g, log, stamp);
            && TailBounded(r.base, r.tail)
            && (g.built.Some? && TailBounded(g.base, Reread(ops, g.tail, log)) ==> r.base == g.base && r.built == g.built)
  {
    if g.built.Some? {
      var b, n := |g.base|, |Reread(ops, g.tail, log)|;
      assert n > b / 8 <==> 8 * n > b;
    }
  }

  /** A refreshed grouping answers exactly the slots of its partition. */
  lemma {:induction false} ReadIsScan(ops: Ops, p: nat, g: Grouping, v: nat)
    requires g.built.Some? && Knows(ops, p, g, []) && Placed(ops, p, g)
    ensures forall e: Entry :: e in Read(ops, g, v) <==> e.cell == v && InPart(ops, p, e.owner) && Slot(ops, e)
  {
    forall e: Entry
      ensures e in Read(ops, g, v) <==> e.cell == v && InPart(ops, p, e.owner) && Slot(ops, e)
    {
      if InPart(ops, p, e.owner) {
        assert Has(ops, g, e) <==> Slot(ops, e);
      }
    }
  }

  // ----- Writing an op.

  /** An op written at the current tick, logged unless it already was at this tick. */
  lemma {:induction false} WriteKeeps(ops: Ops, p: nat, part: Part, tick: nat, id: nat, op: Op)
    requires PartValid(ops, p, part, tick) && op.stamp == tick
    requires id in ops ==> op.part == ops[id].part
    ensures op.part != p ==> PartValid(ops[id := op], p, part, tick)
    ensures op.part == p ==> PartValid(ops[id := op], p, part.(opLog := part.opLog + [id]), tick)
    ensures op.part == p && id in part.opLog ==> PartValid(ops[id := op], p, part, tick)
  {
    WriteKnows(ops, p, part.uses, part.opLog, tick, id, op);
    WritePlaced(ops, p, part, tick, id, op);
  }

  lemma {:induction false} WriteKnows(ops: Ops, p: nat, g: Grouping, log: seq<nat>, tick: nat, id: nat, op: Op)
    requires Knows(ops, p, g, log) && (id in ops ==> op.part == ops[id].part)
    ensures op.part != p || id in log ==> Knows(ops[id := op], p, g, log)
    ensures Knows(ops[id := op], p, g, log + [id])
  {
    if g.built.Some? {
      forall e: Entry | InPart(ops[id := op], p, e.owner) && e.owner !in log && e.owner != id
        ensures Has(ops[id := op], g, e) <==> Slot(ops[id := op], e)
      {
        assert InPart(ops, p, e.owner);
        assert Has(ops, g, e) <==> Slot(ops, e);
      }
    }
  }

  lemma {:induction false} WritePlaced(ops: Ops, p: nat, part: Part, tick: nat, id: nat, op: Op)
    requires Placed(ops, p, part.uses) && Logged(ops, p, part, tick) && op.stamp == tick
    requires id in ops ==> op.part == ops[id].part
    ensures Placed(ops[id := op], p, part.uses)
    ensures op.part != p || id in part.opLog ==> Logged(ops[id := op], p, part, tick)
    ensures op.part == p ==> Logged(ops[id := op], p, part.(opLog := part.opLog + [id]), tick)
  {
  }

  // ----- The database.

  ghost predicate PartsValid(ops: Ops, parts: map<nat, Part>, tick: nat)
  {
    && (forall p | p in parts :: PartValid(ops, p, parts[p], tick))
    && (forall id | id in ops :: ops[id].part in parts && ops[id].stamp <= tick)
  }

  /** A live slot's partition is among the readers of the value it holds. */
  ghost predicate Noted(ops: Ops, values: map<nat, Readers>)
  {
    && (forall c | c in values :: Distinct(ReadersOf(values[c])))
    && (forall e | Slot(ops, e) :: ChunkOf(e.cell) in values && ops[e.owner].part in ReadersOf(values[ChunkOf(e.cell)]))
  }

  /** The op's partition is noted for the values it names, and no partition is forgotten. */
  ghost predicate Notes(before: map<nat, Readers>, after: map<nat, Readers>, op: Op)
  {
    && after.Keys == before.Keys && (forall c | c in after :: Distinct(ReadersOf(after[c])))
    && (forall c, p | c in after && p in ReadersOf(before[c]) :: p in ReadersOf(after[c]))
    && (forall v | v in op.operands && ChunkOf(v) in after :: op.part in ReadersOf(after[ChunkOf(v)]))
  }

  lemma {:induction false} NotedAfter(ops: Ops, before: map<nat, Readers>, after: map<nat, Readers>, id: nat, op: Op)
    requires Noted(ops, before) && Notes(before, after, op) && forall v | v in op.operands :: ChunkOf(v) in after
    ensures Noted(ops[id := op], after)
  {
    forall e | Slot(ops[id := op], e)
      ensures ChunkOf(e.cell) in after && ops[id := op][e.owner].part in ReadersOf(after[ChunkOf(e.cell)])
    {
      if e.owner == id {
        assert op.operands[e.index] in op.operands;
      } else {
        assert Slot(ops, e);
      }
    }
  }

  class Db {
    var ops: Ops
    var parts: map<nat, Part>
    var values: map<nat, Readers>
    var tick: nat
    var retargets: seq<(nat, nat)>

    /** Every partition's use lists are right but for what it logged, and every naming partition is noted. */
    ghost predicate Valid()
      reads this
    {
      PartsValid(ops, parts, tick) && Noted(ops, values)
    }

    constructor ()
      ensures Valid() && ops == map[] && values == map[] && parts.Keys == {0} && retargets == []
    {
      ops, parts, values, tick, retargets := map[], map[0 := NoPart], map[], 1, [];
    }

    /** A new partition. */
    method EnterPartition(part: nat)
      requires Valid() && part !in parts
      modifies this`parts
      ensures Valid() && parts == old(parts)[part := NoPart]
    {
      forall id | id in ops
        ensures ops[id].part != part
      {
      }
      parts := parts[part := NoPart];
    }

    /** A fresh chunk of values, which no op names yet. */
    method AddValues(chunk: nat, owner: nat)
      requires Valid() && chunk !in values
      modifies this`values
      ensures Valid() && values == old(values)[chunk := Readers(owner, [])]
    {
      values := values[chunk := Readers(owner, [])];
    }

    /** The partition named as one with an op naming the value. */
    method NoteValue(value: nat, part: nat)
      requires forall c | c in values :: Distinct(ReadersOf(values[c]))
      modifies this`values
      ensures forall c | c in values :: Distinct(ReadersOf(values[c]))
      ensures values.Keys == old(values).Keys
      ensures forall c, p | c in values :: p in ReadersOf(values[c]) <==> p in ReadersOf(old(values)[c]) || (c == ChunkOf(value) && p == part)
    {
      var index := ChunkOf(value);
      if index in values {
        values := values[index := Note(values[index], part)];
      }
    }

    /** The partition noted for every value of an op it has. */
    method NoteValues(op: Op)
      requires forall c | c in values :: Distinct(ReadersOf(values[c]))
      modifies this`values
      ensures Notes(old(values), values, op)
    {
      for i := 0 to |op.operands|
        invariant forall c | c in values :: Distinct(ReadersOf(values[c]))
        invariant values.Keys == old(values).Keys
        invariant forall c, p | c in values && p in ReadersOf(old(values)[c]) :: p in ReadersOf(values[c])
        invariant forall k | 0 <= k < i && ChunkOf(op.operands[k]) in values :: op.part in ReadersOf(values[ChunkOf(op.operands[k])])
      {
        NoteValue(op.operands[i], op.part);
      }
    }

    /** A row written: stamped, logged for its partition, its values noted. */
    method PutOp(id: nat, op: Op)
      requires Valid() && op.stamp == tick && op.part in parts && (id in ops ==> op.part == ops[id].part)
      requires forall v | v in op.operands :: ChunkOf(v) in values
      modifies this`ops, this`parts, this`values
      ensures Valid() && ops == old(ops)[id := op] && parts.Keys == old(parts).Keys && values.Keys == old(values).Keys
    {
      WriteRow(id, op);
      NoteValues(op);
      NotedAfter(old(ops), old(values), values, id, op);
    }

    /** The row put and its op logged, unless this tick already did. */
    method WriteRow(id: nat, op: Op)
      requires PartsValid(ops, parts, tick) && op.stamp == tick && op.part in parts && (id in ops ==> op.part == ops[id].part)
      modifies this`ops, this`parts
      ensures ops == old(ops)[id := op] && parts.Keys == old(parts).Keys && PartsValid(ops, parts, tick)
    {
      forall p | p in parts
        ensures op.part != p ==> PartValid(ops[id := op], p, parts[p], tick)
        ensures op.part == p ==> PartValid(ops[id := op], p, parts[p].(opLog := parts[p].opLog + [id]), tick)
        ensures op.part == p && id in parts[p].opLog ==> PartValid(ops[id := op], p, parts[p], tick)
      {
        WriteKeeps(ops, p, parts[p], tick, id, op);
      }
      if id !in ops || ops[id].stamp != tick {
        parts := parts[op.part := parts[op.part].(opLog := parts[op.part].opLog + [id])];
      } else {
        assert PartValid(ops, op.part, parts[op.part], tick) && InPart(ops, op.part, id);
      }
      ops := ops[id := op];
    }

    method AddOperation(id: nat, part: nat, operands: seq<nat>)
      requires Valid() && id !in ops && part in parts && forall v | v in operands :: ChunkOf(v) in values
      modifies this`ops, this`parts, this`values
      ensures Valid() && ops == old(ops)[id := Op(part, true, tick, operands)]
      ensures parts.Keys == old(parts).Keys && values.Keys == old(values).Keys
    {
      PutOp(id, Op(part, true, tick, operands));
    }

    method SetOperand(id: nat, index: nat, v: nat) returns (ok: bool)
      requires Valid() && ChunkOf(v) in values && (id in ops && ops[id].live ==> index < |ops[id].operands|)
      modifies this`ops, this`parts, this`values
      ensures Valid() && ok == (id in old(ops) && old(ops)[id].live)
      ensures ops == if ok then old(ops)[id := Rewritten(old(ops)[id], tick, old(ops)[id].operands[index := v])] else old(ops)
      ensures parts.Keys == old(parts).Keys && values.Keys == old(values).Keys
    {
      if id !in ops || !ops[id].live {
        return false;
      }
      OperandsExist(id);
      PutOp(id, Rewritten(ops[id], tick, ops[id].operands[index := v]));
      return true;
    }

    method SpliceOperands(id: nat, at: nat, remove: nat, insert: seq<nat>) returns (ok: bool)
      requires Valid() && (forall v | v in insert :: ChunkOf(v) in values)
      requires id in ops && ops[id].live ==> at + remove <= |ops[id].operands|
      modifies this`ops, this`parts, this`values
      ensures Valid() && ok == (id in old(ops) && old(ops)[id].live)
      ensures ops == if ok then old(ops)[id := Rewritten(old(ops)[id], tick, Spliced(old(ops)[id].operands, at, remove, insert))] else old(ops)
      ensures parts.Keys == old(parts).Keys && values.Keys == old(values).Keys
    {
      if id !in ops || !ops[id].live {
        return false;
      }
      OperandsExist(id);
      PutOp(id, Rewritten(ops[id], tick, Spliced(ops[id].operands, at, remove, insert)));
      return true;
    }

    /** A write that leaves the operands alone: attributes, results, the holder. */
    method TouchOp(id: nat)
      requires Valid() && id in ops && ops[id].live
      modifies this`ops, this`parts, this`values
      ensures Valid() && ops == old(ops)[id := old(ops)[id].(stamp := tick)]
      ensures parts.Keys == old(parts).Keys && values.Keys == old(values).Keys
    {
      OperandsExist(id);
      PutOp(id, ops[id].(stamp := tick));
    }

    method KillOp(id: nat)
      requires Valid()
      modifies this`ops, this`parts, this`values
      ensures Valid() && parts.Keys == old(parts).Keys && values.Keys == old(values).Keys
      ensures ops == if id in old(ops) && old(ops)[id].live then old(ops)[id := old(ops)[id].(stamp := tick, live := false)] else old(ops)
    {
      if id in ops && ops[id].live {
        OperandsExist(id);
        PutOp(id, ops[id].(stamp := tick, live := false));
      }
    }

    lemma OperandsExist(id: nat)
      requires Valid() && id in ops && ops[id].live
      ensures forall v | v in ops[id].operands :: ChunkOf(v) in values
    {
      forall v | v in ops[id].operands
        ensures ChunkOf(v) in values
      {
        var i: nat :| i < |ops[id].operands| && ops[id].operands[i] == v;
        assert Slot(ops, Entry(v, id, i));
      }
    }

    /** The end of an epoch: later writes are stamped later. */
    method Commit()
      requires Valid()
      modifies this`tick, this`retargets
      ensures Valid() && tick == old(tick) + 1 && retargets == []
    {
      tick, retargets := tick + 1, [];
    }

    // ----- Lookups.

    method RefreshUses(p: nat)
      requires Valid()
      modifies this`parts, this`tick
      ensures Valid() && parts.Keys == old(parts).Keys
      ensures p in parts ==> parts[p].opLog == [] && parts[p].uses.built.Some?
      ensures forall q | q in parts && q != p :: parts[q] == old(parts)[q]
    {
      if p !in parts || (parts[p].uses.built.Some? && parts[p].opLog == []) {
        return;
      }
      RefreshKnows(ops, p, parts[p], tick);
      forall q | q in parts
        ensures PartValid(ops, q, parts[q], tick) && parts[q].opLog == [] ==> PartValid(ops, q, parts[q], tick + 1)
      {
      }
      parts := parts[p := Part(Refresh(ops, p, parts[p].uses, parts[p].opLog, tick), [])];
      tick := tick + 1;
    }

    /** Every use of the value, once: exactly the live operand slots holding it. */
    method Uses(v: nat) returns (found: seq<Entry>)
      requires Valid()
      modifies this`parts, this`tick
      ensures Valid() && parts.Keys == old(parts).Keys && NoneTwice(found)
      ensures forall e: Entry :: e in found <==> e.cell == v && Slot(ops, e)
    {
      found := [];
      var readers := if ChunkOf(v) in values then ReadersOf(values[ChunkOf(v)]) else [];
      for i := 0 to |readers|
        invariant Valid() && parts.Keys == old(parts).Keys && NoneTwice(found)
        invariant forall e: Entry :: e in found <==> e.cell == v && Slot(ops, e) && ops[e.owner].part in readers[..i]
      {
        RefreshUses(readers[i]);
        if readers[i] in parts {
          ReadIsScan(ops, readers[i], parts[readers[i]].uses, v);
          var more := List(Read(ops, parts[readers[i]].uses, v));
          assert readers[i] !in readers[..i];
          NoneTwiceTogether(found, more);
          found := found + more;
        }
      }
      assert readers[..|readers|] == readers;
    }

    /** Replaces every use of a value: the slots holding it hold the other one, and nothing else changes. */
    method ReplaceValueUses(was: nat, now: nat)
      requires Valid() && ChunkOf(now) in values
      modifies this
      ensures Valid() && retargets == old(retargets) + [(was, now)]
      ensures Renamed(old(ops), ops, was, now)
      ensures parts.Keys == old(parts).Keys && values.Keys == old(values).Keys
    {
      retargets := retargets + [(was, now)];
      var uses := Uses(was);
      RewriteUses(uses, was, now);
      RenamedAll(old(ops), ops, was, now, uses);
    }

    method RewriteUses(uses: seq<Entry>, was: nat, now: nat)
      requires Valid() && ChunkOf(now) in values && AreSlots(ops, uses, was)
      modifies this`ops, this`parts, this`values
      ensures Valid() && PartlyRenamed(old(ops), ops, was, now, uses)
      ensures (parts.Keys, values.Keys) == (old(parts).Keys, old(values).Keys)
    {
      ghost var before, keys := ops, (parts.Keys, values.Keys);
      for i := 0 to |uses|
        invariant Valid() && (parts.Keys, values.Keys) == keys
        invariant PartlyRenamed(before, ops, was, now, uses[..i])
      {
        Seqs.TakeOneMore(uses, i);
        RewriteUse(uses[i], was, now, before, uses[..i]);
      }
      assert uses[..|uses|] == uses;
    }

    method RewriteUse(e: Entry, was: nat, now: nat, ghost before: Ops, ghost done: seq<Entry>)
      requires Valid() && ChunkOf(now) in values && Slot(before, e) && e.cell == was
      requires PartlyRenamed(before, ops, was, now, done)
      modifies this`ops, this`parts, this`values
      ensures Valid() && PartlyRenamed(before, ops, was, now, done + [e])
      ensures (parts.Keys, values.Keys) == (old(parts).Keys, old(values).Keys)
    {
      assert OpRenamed(before[e.owner], ops[e.owner], e.owner, was, now, done);
      var _ := SetOperand(e.owner, e.index, now);
      RenamedStep(before, old(ops), ops, was, now, done, e, tick);
    }

    method IsUsed(v: nat) returns (used: bool)
      requires Valid()
      modifies this`parts, this`tick
      ensures Valid() && parts.Keys == old(parts).Keys
      ensures used <==> exists e: Entry :: e.cell == v && Slot(ops, e)
    {
      var readers := if ChunkOf(v) in values then ReadersOf(values[ChunkOf(v)]) else [];
      for i := 0 to |readers|
        invariant Valid() && parts.Keys == old(parts).Keys
        invariant forall e: Entry | e.cell == v && Slot(ops, e) :: ops[e.owner].part !in readers[..i]
      {
        RefreshUses(readers[i]);
        if readers[i] in parts {
          ReadIsScan(ops, readers[i], parts[readers[i]].uses, v);
          if Read(ops, parts[readers[i]].uses, v) != {} {
            ghost var e :| e in Read(ops, parts[readers[i]].uses, v);
            return true;
          }
        }
      }
      assert readers[..|readers|] == readers;
      return false;
    }
  }

  ghost predicate AreSlots(ops: Ops, s: seq<Entry>, v: nat)
  {
    forall i: nat {:trigger s[i]} | i < |s| :: Slot(ops, s[i]) && s[i].cell == v
  }

  ghost predicate NoneTwice(s: seq<Entry>) { forall i: nat, j: nat | i < j < |s| :: s[i] != s[j] }

  lemma {:induction false} NoneTwiceTogether(a: seq<Entry>, b: seq<Entry>)
    requires NoneTwice(a) && NoneTwice(b) && forall e | e in b :: e !in a
    ensures NoneTwice(a + b)
  {
    forall i: nat, j: nat | i < j < |a + b|
      ensures (a + b)[i] != (a + b)[j]
    {
      assert j >= |a| ==> b[j - |a|] in b;
    }
  }

  /** The entries one after another, in some order. */
  method List(entries: set<Entry>) returns (r: seq<Entry>)
    ensures NoneTwice(r) && forall e :: e in r <==> e in entries
  {
    r := [];
    var todo := entries;
    while todo != {}
      invariant NoneTwice(r) && todo <= entries && forall e :: e in r <==> e in entries && e !in todo
      decreases todo
    {
      var e :| e in todo;
      NoneTwiceTogether(r, [e]);
      r := r + [e];
      todo := todo - {e};
    }
  }

  /** The same op with as many operands; a dead one is unchanged. */
  ghost predicate SameOp(before: Op, after: Op)
  {
    && after.part == before.part && after.live == before.live && |after.operands| == |before.operands|
    && (!before.live ==> after == before)
  }

  /** The op's slots in `done` hold `now`, the others what they held. */
  ghost predicate OpRenamed(before: Op, after: Op, id: nat, was: nat, now: nat, done: seq<Entry>)
  {
    && SameOp(before, after)
    && (before.live ==> forall k: nat | k < |before.operands| :: after.operands[k] == if Entry(was, id, k) in done then now else before.operands[k])
  }

  ghost predicate PartlyRenamed(before: Ops, after: Ops, was: nat, now: nat, done: seq<Entry>)
  {
    after.Keys == before.Keys && forall id | id in before :: OpRenamed(before[id], after[id], id, was, now, done)
  }

  lemma {:induction false} RenamedStep(before: Ops, mid: Ops, after: Ops, was: nat, now: nat, done: seq<Entry>, e: Entry, tick: nat)
    requires PartlyRenamed(before, mid, was, now, done) && Slot(before, e) && e.cell == was
    requires e.index < |mid[e.owner].operands| && after == mid[e.owner := Rewritten(mid[e.owner], tick, mid[e.owner].operands[e.index := now])]
    ensures PartlyRenamed(before, after, was, now, done + [e])
  {
    forall id | id in before
      ensures OpRenamed(before[id], after[id], id, was, now, done + [e])
    {
      assert OpRenamed(before[id], mid[id], id, was, now, done);
      assert forall k: nat :: Entry(was, id, k) == e <==> id == e.owner && k == e.index;
    }
  }

  lemma {:induction false} RenamedAll(before: Ops, after: Ops, was: nat, now: nat, done: seq<Entry>)
    requires PartlyRenamed(before, after, was, now, done)
    requires forall e: Entry :: e in done <==> e.cell == was && Slot(before, e)
    ensures Renamed(before, after, was, now)
  {
    forall id | id in before
      ensures OpRewritten(before[id], after[id], was, now)
    {
      assert OpRenamed(before[id], after[id], id, was, now, done);
    }
  }

  function Renaming(s: seq<nat>, was: nat, now: nat): (r: seq<nat>)
    ensures |r| == |s| && forall k: nat | k < |s| :: r[k] == if s[k] == was then now else s[k]
  {
    seq(|s|, k requires 0 <= k < |s| => if s[k] == was then now else s[k])
  }

  ghost predicate OpRewritten(before: Op, after: Op, was: nat, now: nat)
  {
    SameOp(before, after) && (before.live ==> after.operands == Renaming(before.operands, was, now))
  }

  /** Every live op names `now` wherever it named `was`, and nothing else changes. */
  ghost predicate Renamed(before: Ops, after: Ops, was: nat, now: nat)
  {
    after.Keys == before.Keys && forall id | id in before :: OpRewritten(before[id], after[id], was, now)
  }

  function Rewritten(op: Op, tick: nat, operands: seq<nat>): Op { op.(stamp := tick, operands := operands) }

  /** `insert` in place of the `remove` operands at `at`. */
  function Spliced(s: seq<nat>, at: nat, remove: nat, insert: seq<nat>): (r: seq<nat>)
    requires at + remove <= |s|
    ensures |r| == |s| - remove + |insert|
    ensures forall k: nat | k < |r| ::
              r[k] == if k < at then s[k] else if k < at + |insert| then insert[k - at] else s[k - |insert| + remove]
  {
    s[..at] + insert + s[at + remove..]
  }
}
