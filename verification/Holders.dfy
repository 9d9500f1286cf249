/**
  The ops a block or region holds: `held` reads them in position order, and
  appending, inserting, replacing, removing and setting act on that list.
 */
module Holders {
  import opened Seqs
  import opened Options
  import opened ForeignSets
  import opened HeldLists
  import opened HeldOrder

  const CHUNK_ROWS: nat := 4096

  /** The chunk a holder's row is in. */
  function ChunkOf(h: Parent): Parent { if h.Block? then Block(h.id / CHUNK_ROWS) else Region(h.id / CHUNK_ROWS) }

  ghost predicate PartsValid(ops: Ops, parts: map<nat, Part>)
  {
    && (forall p | p in parts :: PartValid(ops, p, parts[p]))
    && (forall id | id in ops :: ops[id].part in parts)
  }

  /** An op's partition is among the readers of its holder. */
  ghost predicate NotedOp(op: Op, readers: map<Parent, Readers>)
  {
    op.live && op.holder.Some? ==>
      ChunkOf(op.holder.value) in readers && op.part in ReadersOf(readers[ChunkOf(op.holder.value)])
  }

  ghost predicate Noted(ops: Ops, readers: map<Parent, Readers>)
  {
    (forall c | c in readers :: Distinct(ReadersOf(readers[c]))) && forall id | id in ops :: NotedOp(ops[id], readers)
  }

  /** A write of one row, logged for its partition. */
  lemma {:induction false} WriteKeeps(ops: Ops, p: nat, part: Part, id: nat, op: Op)
    requires PartValid(ops, p, part) && id in ops && op.part == ops[id].part
    ensures op.part != p ==> PartValid(ops[id := op], p, part)
    ensures op.part == p ==> PartValid(ops[id := op], p, part.(heldLog := part.heldLog + {id}))
  {
  }

  /** An op from nowhere is in no list. */
  lemma {:induction false} AddKeeps(ops: Ops, p: nat, part: Part, id: nat, op: Op)
    requires PartValid(ops, p, part) && id !in ops && op.holder.None?
    ensures PartValid(ops[id := op], p, part)
  {
  }

  /** A refreshed partition's list is its part of the holder's ops. */
  lemma {:induction false} ReadIsScan(ops: Ops, p: nat, l: Lists, h: Parent)
    requires KnowsBut(ops, p, l, {})
    ensures Sorted(ops, ListOf(l, h))
    ensures forall id: nat :: id in ListOf(l, h) <==> HeldBy(ops, h, id) && ops[id].part == p
  {
    assert SortedBut(ops, ListOf(l, h), {});
    forall id: nat
      ensures id in ListOf(l, h) <==> HeldBy(ops, h, id) && ops[id].part == p
    {
      assert id in ListOf(l, h) <==> id in l.placed && l.placed[id] == h;
      if InPart(ops, p, id) {
        assert PlacedRight(ops, l, id);
      }
    }
  }

  lemma {:induction false} NewSpaces(ops: Ops, next: map<Parent, nat>, h: Parent)
    requires Spaced(ops, next) && h !in next
    ensures Spaced(ops, next[h := STRIDE])
  {
    var more := next[h := STRIDE];
    forall g: Parent
      ensures SpacedAt(ops, more, g)
    {
      assert SpacedAt(ops, next, g);
    }
  }

  lemma {:induction false} NotedAfter(ops: Ops, readers: map<Parent, Readers>, id: nat, op: Op)
    requires Noted(ops, readers) && (op.live && op.holder.Some? ==> ChunkOf(op.holder.value) in readers)
    ensures op.holder.Some? && ChunkOf(op.holder.value) in readers ==>
              var c := ChunkOf(op.holder.value);
              Noted(ops[id := op], readers[c := Note(readers[c], op.part)])
    ensures !(op.holder.Some? && ChunkOf(op.holder.value) in readers) ==> Noted(ops[id := op], readers)
  {
  }

  lemma {:induction false} AddSpaces(ops: Ops, next: map<Parent, nat>, id: nat, op: Op)
    requires Spaced(ops, next) && id !in ops && op.holder.None?
    ensures Spaced(ops[id := op], next)
  {
    var more := ops[id := op];
    forall g: Parent
      ensures SpacedAt(more, next, g)
    {
      assert SpacedAt(ops, next, g);
      assert !HeldBy(more, g, id);
      assert forall x | HeldBy(more, g, x) :: HeldBy(ops, g, x) && more[x] == ops[x];
    }
  }

  class Db {
    var ops: Ops
    var parts: map<nat, Part>
    var readers: map<Parent, Readers>
    var next: map<Parent, nat>

    /** Every list is right but for what is logged, and every holder's readers are noted. */
    ghost predicate Indexed()
      reads this
    {
      PartsValid(ops, parts) && Noted(ops, readers) && forall h | h in next :: ChunkOf(h) in readers
    }

    /** And positions are spaced, so that lists can be edited. */
    ghost predicate Valid()
      reads this
    {
      Indexed() && Spaced(ops, next)
    }

    constructor ()
      ensures Valid() && ops == map[] && next == map[] && parts.Keys == {0}
    {
      ops, parts, readers, next := map[], map[0 := NoPart], map[], map[];
    }

    method EnterPartition(part: nat)
      requires Valid() && part !in parts
      modifies this`parts
      ensures Valid() && parts == old(parts)[part := NoPart]
    {
      parts := parts[part := NoPart];
    }

    /** A new, empty holder, in a chunk of partition `owner`. */
    method AddHolder(h: Parent, owner: nat)
      requires Valid() && h !in next
      modifies this`readers, this`next
      ensures Valid() && next == old(next)[h := STRIDE]
    {
      if ChunkOf(h) !in readers {
        readers := readers[ChunkOf(h) := Readers(owner, [])];
      }
      NewSpaces(ops, next, h);
      next := next[h := STRIDE];
    }

    method AddOp(id: nat, part: nat)
      requires Valid() && id !in ops && part in parts
      modifies this`ops
      ensures Valid() && ops == old(ops)[id := Op(part, true, None, 0)]
    {
      var op := Op(part, true, None, 0);
      forall p | p in parts
        ensures PartValid(ops[id := op], p, parts[p])
      {
        AddKeeps(ops, p, parts[p], id, op);
      }
      AddSpaces(ops, next, id, op);
      ops := ops[id := op];
    }

    /** A row written and logged, its holder told of its partition. */
    method PutOp(id: nat, op: Op)
      requires Indexed() && id in ops && op.part == ops[id].part
      requires op.live && op.holder.Some? ==> ChunkOf(op.holder.value) in readers
      modifies this`ops, this`parts, this`readers
      ensures Indexed() && ops == old(ops)[id := op] && readers.Keys == old(readers).Keys && parts.Keys == old(parts).Keys
    {
      NotedAfter(ops, readers, id, op);
      WriteRow(id, op);
      if op.holder.Some? && ChunkOf(op.holder.value) in readers {
        var c := ChunkOf(op.holder.value);
        readers := readers[c := Note(readers[c], op.part)];
      }
    }

    method WriteRow(id: nat, op: Op)
      requires PartsValid(ops, parts) && id in ops && op.part == ops[id].part
      modifies this`ops, this`parts
      ensures PartsValid(ops, parts) && ops == old(ops)[id := op] && parts.Keys == old(parts).Keys
    {
      forall p | p in parts
        ensures op.part != p ==> PartValid(ops[id := op], p, parts[p])
        ensures op.part == p ==> PartValid(ops[id := op], p, parts[p].(heldLog := parts[p].heldLog + {id}))
      {
        WriteKeeps(ops, p, parts[p], id, op);
      }
      parts := parts[op.part := parts[op.part].(heldLog := parts[op.part].heldLog + {id})];
      ops := ops[id := op];
    }

    method Hold(id: nat, h: Parent, position: nat)
      requires Indexed() && id in ops && ops[id].live && ChunkOf(h) in readers
      modifies this`ops, this`parts, this`readers
      ensures parts.Keys == old(parts).Keys
      ensures Indexed() && ops == old(ops)[id := HeldOrder.Held(old(ops)[id], h, position)] && readers.Keys == old(readers).Keys
    {
      PutOp(id, HeldOrder.Held(ops[id], h, position));
    }

    method Release(id: nat)
      requires Indexed()
      modifies this`ops, this`parts, this`readers
      ensures parts.Keys == old(parts).Keys
      ensures Indexed() && readers.Keys == old(readers).Keys
      ensures ops == if id in old(ops) && old(ops)[id].live then old(ops)[id := old(ops)[id].(holder := None)] else old(ops)
    {
      if id in ops && ops[id].live {
        PutOp(id, ops[id].(holder := None));
      }
    }

    method KillOp(id: nat)
      requires Valid()
      modifies this`ops, this`parts, this`readers
      ensures parts.Keys == old(parts).Keys
      ensures Valid() && readers.Keys == old(readers).Keys
      ensures ops == if id in old(ops) && old(ops)[id].live then old(ops)[id := old(ops)[id].(live := false)] else old(ops)
    {
      if id in ops && ops[id].live {
        ReleaseSpaces(ops, next, id, ops[id].(live := false));
        PutOp(id, ops[id].(live := false));
      }
    }

    // ----- Lookups.

    method RefreshHeld(p: nat)
      requires Indexed()
      modifies this`parts
      ensures Indexed() && parts.Keys == old(parts).Keys
      ensures p in parts ==> KnowsBut(ops, p, parts[p].held, {})
    {
      if p !in parts || (parts[p].held.built && parts[p].heldLog == {}) {
        return;
      }
      var l := Refresh(ops, p, parts[p]);
      parts := parts[p := Part(l, {})];
    }

    /** The ops a holder holds: exactly the live ones whose holder it is, in position order. */
    method Held(h: Parent) returns (found: seq<nat>)
      requires Indexed() && ChunkOf(h) in readers
      modifies this`parts
      ensures parts.Keys == old(parts).Keys
      ensures Indexed() && Listed(ops, h, found)
    {
      var chunk := readers[ChunkOf(h)];
      if chunk.foreign == [] {
        RefreshHeld(chunk.owner);
        found := if chunk.owner in parts then ListOf(parts[chunk.owner].held, h) else [];
        if chunk.owner in parts {
          ReadIsScan(ops, chunk.owner, parts[chunk.owner].held, h);
        }
        assert ReadersOf(chunk) == [chunk.owner];
        return;
      }
      found := HeldIn(h, ReadersOf(chunk));
    }

    /** The lists of several partitions put together, sorted again if more than one has any. */
    method HeldIn(h: Parent, from: seq<nat>) returns (found: seq<nat>)
      requires Indexed() && Distinct(from)
      requires forall id | HeldBy(ops, h, id) :: ops[id].part in from
      modifies this`parts
      ensures parts.Keys == old(parts).Keys
      ensures Indexed() && Listed(ops, h, found)
    {
      found := [];
      var mixed := false;
      for i := 0 to |from|
        invariant Indexed() && parts.Keys == old(parts).Keys
        invariant forall id: nat :: id in found <==> HeldBy(ops, h, id) && ops[id].part in from[..i]
        invariant forall j: nat, k: nat | j < k < |found| :: found[j] != found[k]
        invariant !mixed ==> Sorted(ops, found)
      {
        assert from[..i + 1] == from[..i] + [from[i]];
        RefreshHeld(from[i]);
        if from[i] in parts {
          var held := ListOf(parts[from[i]].held, h);
          ReadIsScan(ops, from[i], parts[from[i]].held, h);
          assert from[i] !in from[..i];
          mixed := mixed || (found != [] && held != []);
          Together(ops, found, held);
          found := found + held;
        }
      }
      assert from[..|from|] == from;
      if mixed {
        found := Sort(ops, found);
      }
    }

    // ----- Positions.

    method SetHeld(h: Parent, list: seq<nat>)
      requires Indexed() && h in next && Distinct(list) && |list| <= MAX_HELD
      requires forall id | id in list :: id in ops && ops[id].live
      modifies this
      ensures parts.Keys == old(parts).Keys
      ensures Indexed() && next == old(next)[h := (|list| + 1) * STRIDE]
      ensures SetTo(old(ops), ops, h, list, |list|)
    {
      for n := 0 to |list|
        invariant Indexed() && next == old(next) && parts.Keys == old(parts).Keys
        invariant SetTo(old(ops), ops, h, list, n)
      {
        assert list[n] in list && list[n] !in list[..n];
        ghost var mid := ops;
        Hold(list[n], h, (n + 1) * STRIDE);
        SetStep(old(ops), mid, ops, h, list, n);
      }
      next := next[h := (|list| + 1) * STRIDE];
    }

    /** Renumbers what the holder holds. */
    method Renumber(h: Parent, list: seq<nat>)
      requires Indexed() && h in next && |list| <= MAX_HELD && Listed(ops, h, list)
      requires forall g: Parent | g != h :: SpacedAt(ops, next, g)
      requires forall g | g in next && g != h :: 0 < next[g] < U32
      modifies this
      ensures parts.Keys == old(parts).Keys
      ensures Valid() && Listed(ops, h, list) && Renumbered(old(ops), ops, h)
      ensures next == old(next)[h := (|list| + 1) * STRIDE]
      ensures SetTo(old(ops), ops, h, list, |list|)
    {
      ListDistinct(ops, h, list);
      SetHeld(h, list);
      SetIsExact(old(ops), ops, h, list);
      SetSpaces(old(ops), ops, old(next), h, list);
      SetRenumbers(old(ops), ops, h, list);
    }

    /** A position past every op of the holder, which is renumbered when its counter is about to run out. */
    method NextPosition(h: Parent, ghost s: seq<nat>) returns (position: nat)
      requires Valid() && h in next && Listed(ops, h, s) && |s| <= MAX_HELD
      modifies this
      ensures parts.Keys == old(parts).Keys
      ensures Valid() && Listed(ops, h, s) && Renumbered(old(ops), ops, h)
      ensures next.Keys == old(next).Keys && 0 < position < next[h]
      ensures forall id | HeldBy(ops, h, id) :: ops[id].position < position
      decreases if next[h] < LIMIT then 0 else 1
    {
      position := next[h];
      if position < LIMIT {
        CounterSpaces(ops, next, h, (position + STRIDE) % U32);
        next := next[h := (position + STRIDE) % U32];
        return;
      }
      RunOut(h, s);
      ghost var mid := ops;
      position := NextPosition(h, s);
      RenumberedTwice(old(ops), mid, ops, h);
    }

    /** The counter is past its limit, and wraps if it must: what the holder holds is renumbered. */
    method RunOut(h: Parent, ghost s: seq<nat>)
      requires Valid() && h in next && Listed(ops, h, s) && |s| <= MAX_HELD
      modifies this
      ensures parts.Keys == old(parts).Keys
      ensures Valid() && Listed(ops, h, s) && Renumbered(old(ops), ops, h)
      ensures next.Keys == old(next).Keys && next[h] < LIMIT
    {
      OthersSpaced(ops, next, next[h := (next[h] + STRIDE) % U32], h);
      next := next[h := (next[h] + STRIDE) % U32];
      var held := Held(h);
      ListedOnce(ops, held, s);
      Renumber(h, held);
    }

    method AppendHeld(h: Parent, id: nat, ghost s: seq<nat>)
      requires Valid() && h in next && Listed(ops, h, s) && |s| <= MAX_HELD
      requires id in ops && ops[id].live
      modifies this
      ensures parts.Keys == old(parts).Keys
      ensures Valid() && next.Keys == old(next).Keys
      ensures Listed(ops, h, Without(s, id) + [id])
      ensures OnlyMoved(old(ops), ops, h, id)
    {
      var position := NextPosition(h, s);
      JoinedLast(ops, h, s, id, position);
      HoldSpaces(ops, next, h, id, position);
      ghost var mid := ops;
      Hold(id, h, position);
      MovedAfter(old(ops), mid, ops, h, id);
    }

    method InsertHeld(block: nat, index: nat, id: nat, ghost s: seq<nat>)
      requires Valid() && Block(block) in next && id in ops && ops[id].live
      requires Listed(ops, Block(block), s) && index <= |s| <= MAX_HELD
      modifies this
      ensures parts.Keys == old(parts).Keys
      ensures Valid() && next.Keys == old(next).Keys
      ensures Listed(ops, Block(block), Inserted(s, index, id))
      ensures OnlyMoved(old(ops), ops, Block(block), id)
    {
      var held := Held(Block(block));
      ListedOnce(ops, held, s);
      if index == |held| {
        AppendHeld(Block(block), id, held);
        InsertedLast(s, id);
      } else {
        InsertInside(Block(block), held, index, id);
      }
    }

    method InsertInside(h: Parent, held: seq<nat>, index: nat, id: nat)
      requires Valid() && h in next && id in ops && ops[id].live
      requires Listed(ops, h, held) && index < |held| <= MAX_HELD
      modifies this
      ensures parts.Keys == old(parts).Keys
      ensures Valid() && next.Keys == old(next).Keys
      ensures Listed(ops, h, Inserted(held, index, id))
      ensures OnlyMoved(old(ops), ops, h, id)
    {
      MakeRoom(h, held, index);
      ghost var mid := ops;
      InsertAt(h, held, index, id);
      MovedAfter(old(ops), mid, ops, h, id);
    }

    /** Renumbers unless there is a free position below the op at `index`. */
    method MakeRoom(h: Parent, held: seq<nat>, index: nat)
      requires Valid() && h in next && Listed(ops, h, held) && index < |held| <= MAX_HELD
      modifies this
      ensures parts.Keys == old(parts).Keys
      ensures Valid() && next.Keys == old(next).Keys
      ensures Listed(ops, h, held) && Renumbered(old(ops), ops, h)
      ensures held[index] in ops && (index > 0 ==> held[index - 1] in ops)
      ensures ops[held[index]].position - Below(ops, held, index) >= 2
    {
      OpsInList(ops, h, held, index);
      if index > 0 {
        OpsInList(ops, h, held, index - 1);
      }
      if ops[held[index]].position - Below(ops, held, index) < 2 {
        Renumber(h, held);
        RenumberedGap(old(ops), ops, h, held, index);
      }
    }

    /** Puts the op halfway between its two neighbours, which are at least two apart. */
    method InsertAt(h: Parent, held: seq<nat>, index: nat, id: nat)
      requires Valid() && h in next && id in ops && ops[id].live
      requires Listed(ops, h, held) && index < |held| && held[index] in ops && (index > 0 ==> held[index - 1] in ops)
      requires ops[held[index]].position - Below(ops, held, index) >= 2
      modifies this`ops, this`parts, this`readers
      ensures parts.Keys == old(parts).Keys
      ensures Valid()
      ensures Listed(ops, h, Inserted(held, index, id))
      ensures exists position: nat :: ops == old(ops)[id := HeldOrder.Held(old(ops)[id], h, position)]
    {
      var low := Below(ops, held, index);
      var position := low + (ops[held[index]].position - low) / 2;
      Splits(ops, next, h, held, index, position);
      JoinedList(ops, h, held, index, id, position);
      HoldSpaces(ops, next, h, id, position);
      Hold(id, h, position);
    }

    method ReplaceHeld(block: nat, gone: nat, id: nat, ghost s: seq<nat>) returns (ok: bool, ghost k: nat)
      requires Valid() && Block(block) in next && Listed(ops, Block(block), s)
      requires HeldBy(ops, Block(block), gone) ==> id in ops && ops[id].live
      modifies this`ops, this`parts, this`readers
      ensures parts.Keys == old(parts).Keys
      ensures Valid() && ok == HeldBy(old(ops), Block(block), gone)
      ensures !ok ==> ops == old(ops)
      ensures ok ==> k < |s| && s[k] == gone && Listed(ops, Block(block), Replaced(s, k, id))
      ensures ok ==> Swapped(old(ops), ops, Block(block), gone, id)
    {
      var h := Block(block);
      if gone !in ops || !ops[gone].live || ops[gone].holder != Some(h) {
        return false, 0;
      }
      assert HeldBy(ops, h, gone);
      k :| k < |s| && s[k] == gone;
      SwapHeld(h, gone, id, s, k);
      ok := true;
    }

    /** Lets one op go and holds another at its position. */
    method SwapHeld(h: Parent, gone: nat, id: nat, ghost s: seq<nat>, ghost k: nat)
      requires Valid() && h in next && Listed(ops, h, s) && HeldBy(ops, h, gone) && id in ops && ops[id].live && k < |s| && s[k] == gone
      modifies this`ops, this`parts, this`readers
      ensures parts.Keys == old(parts).Keys
      ensures Valid() && Listed(ops, h, Replaced(s, k, id)) && Swapped(old(ops), ops, h, gone, id)
    {
      var position := ops[gone].position;
      Release(gone);
      SwapLists(old(ops), ops, next, h, s, k, gone, id);
      Hold(id, h, position);
    }

    method RemoveHeld(h: Parent, id: nat, ghost s: seq<nat>) returns (ok: bool)
      requires Valid() && Listed(ops, h, s)
      modifies this`ops, this`parts, this`readers
      ensures parts.Keys == old(parts).Keys
      ensures Valid() && ok == HeldBy(old(ops), h, id)
      ensures ops == if ok then old(ops)[id := old(ops)[id].(holder := None)] else old(ops)
      ensures Listed(ops, h, Without(s, id))
    {
      if id !in ops || !ops[id].live || ops[id].holder != Some(h) {
        NotThere(s, id);
        return false;
      }
      ReleaseSpaces(ops, next, id, ops[id].(holder := None));
      Release(id);
      LeftList(old(ops), ops, h, s, id);
      return true;
    }
  }

  lemma {:induction false} Together(ops: Ops, a: seq<nat>, b: seq<nat>)
    requires Sorted(ops, b) && (forall x | x in b :: x !in a) && forall j: nat, k: nat | j < k < |a| :: a[j] != a[k]
    ensures forall j: nat, k: nat | j < k < |a + b| :: (a + b)[j] != (a + b)[k]
    ensures a == [] ==> a + b == b
  {
    forall j: nat, k: nat | j < k < |a + b|
      ensures (a + b)[j] != (a + b)[k]
    {
      if k >= |a| {
        assert b[k - |a|] in b;
        assert j >= |a| ==> Before(ops, b[j - |a|], b[k - |a|]);
      }
    }
  }

  method Sort(ops: Ops, s: seq<nat>) returns (r: seq<nat>)
    requires (forall x | x in s :: x in ops) && forall j: nat, k: nat | j < k < |s| :: s[j] != s[k]
    ensures Sorted(ops, r) && forall x: nat :: x in r <==> x in s
  {
    r := [];
    for i := 0 to |s|
      invariant Sorted(ops, r) && forall x: nat :: x in r <==> x in s[..i]
    {
      assert s[..i + 1] == s[..i] + [s[i]];
      InsertMembers(ops, r, s[i]);
      InsertSorts(ops, r, s[i]);
      r := Insert(ops, r, s[i]);
    }
    assert s[..|s|] == s;
  }
}
