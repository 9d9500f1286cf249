/**
  Whole runs of edits on holders, lookups among them, against plain sequences:
  whatever was edited and looked up before, a holder's list is the sequence.
 */
module HolderRuns {
  import opened Seqs
  import opened Options
  import opened HeldLists
  import opened HeldOrder
  import opened Holders

  datatype Edit =
    | EnterPartition(part: nat)
    | AddHolder(h: Parent, owner: nat)
    | AddOp(id: nat, part: nat)
    | Append(h: Parent, id: nat)
    | InsertAt(block: nat, index: nat, id: nat)
    | Replace(block: nat, gone: nat, id: nat)
    | Remove(h: Parent, id: nat)
    | SetTo(h: Parent, list: seq<nat>)
    | Kill(id: nat)
    | Look(h: Parent)

  /** The sequence each holder holds, the ops there are and which of them live, the partitions there are. */
  datatype Plain = Plain(lists: map<Parent, seq<nat>>, known: set<nat>, live: set<nat>, parts: set<nat>)

  const Empty := Plain(map[], {}, {}, {0})

  function WithoutAll(lists: map<Parent, seq<nat>>, out: set<nat>): map<Parent, seq<nat>> { map h | h in lists :: Prune(lists[h], out) }

  function IndexOf(s: seq<nat>, x: nat): (k: nat)
    requires x in s
    ensures k < |s| && s[k] == x
  {
    if s[0] == x then 0 else 1 + IndexOf(s[1..], x)
  }

  /** What the database asks of its caller. */
  ghost predicate Allowed(m: Plain, e: Edit)
  {
    match e
    case EnterPartition(part) => part !in m.parts
    case AddHolder(h, _) => h !in m.lists
    case AddOp(id, part) => id !in m.known && part in m.parts
    case Append(h, id) => h in m.lists && id in m.live && |m.lists[h]| <= MAX_HELD
    case InsertAt(block, index, id) => Block(block) in m.lists && id in m.live && index <= |m.lists[Block(block)]| <= MAX_HELD
    case Replace(block, gone, id) => Block(block) in m.lists && (gone in m.lists[Block(block)] ==> id in m.live)
    case SetTo(h, list) =>
      h in m.lists && Distinct(list) && |list| <= MAX_HELD && (forall x | x in list :: x in m.live) && (forall x | x in m.lists[h] :: x in list)
    case Remove(h, _) => h in m.lists
    case Kill(_) => true
    case Look(h) => h in m.lists
  }

  /** What an edit does to the sequences. */
  ghost function Effect(m: Plain, e: Edit): Plain
    requires Allowed(m, e)
  {
    match e
    case EnterPartition(part) => m.(parts := m.parts + {part})
    case AddHolder(h, _) => m.(lists := m.lists[h := []])
    case AddOp(id, _) => m.(known := m.known + {id}, live := m.live + {id})
    case Append(h, id) => m.(lists := WithoutAll(m.lists, {id})[h := Without(m.lists[h], id) + [id]])
    case InsertAt(block, index, id) => m.(lists := WithoutAll(m.lists, {id})[Block(block) := Inserted(m.lists[Block(block)], index, id)])
    case Replace(block, gone, id) =>
      var s := m.lists[Block(block)];
      if gone in s then m.(lists := WithoutAll(m.lists, {id})[Block(block) := Replaced(s, IndexOf(s, gone), id)]) else m
    case Remove(h, id) => m.(lists := m.lists[h := Without(m.lists[h], id)])
    case SetTo(h, list) => m.(lists := WithoutAll(m.lists, set x | x in list)[h := list])
    case Kill(id) => m.(lists := WithoutAll(m.lists, {id}), live := m.live - {id})
    case Look(_) => m
  }

  ghost predicate AllAllowed(m: Plain, edits: seq<Edit>)
    decreases |edits|
  {
    edits == [] || (Allowed(m, edits[0]) && AllAllowed(Effect(m, edits[0]), edits[1..]))
  }

  ghost function Play(m: Plain, edits: seq<Edit>): Plain
    requires AllAllowed(m, edits)
    decreases |edits|
  {
    if edits == [] then m else Play(Effect(m, edits[0]), edits[1..])
  }

  // ----- The rows show the sequences.

  ghost predicate LiveIs(ops: Ops, live: set<nat>) { forall id: nat :: id in live <==> id in ops && ops[id].live }

  ghost predicate ListsShow(ops: Ops, lists: map<Parent, seq<nat>>) { forall h | h in lists :: Listed(ops, h, lists[h]) }

  ghost predicate OpsShow(ops: Ops, m: Plain) { ops.Keys == m.known && LiveIs(ops, m.live) && ListsShow(ops, m.lists) }

  /** An op moved to where the list says. */
  lemma {:induction false} MoveShows(before: Ops, after: Ops, m: Plain, h: Parent, id: nat, list: seq<nat>)
    requires OpsShow(before, m) && OnlyMoved(before, after, h, id) && h in m.lists && id in m.live && Listed(after, h, list) && id in list
    ensures OpsShow(after, m.(lists := WithoutAll(m.lists, {id})[h := list]))
  {
    var lists := WithoutAll(m.lists, {id})[h := list];
    assert HeldBy(after, h, id);
    forall g | g in lists
      ensures Listed(after, g, lists[g])
    {
      if g != h {
        OtherList(before, after, h, id, g, m.lists[g]);
      }
    }
    MovedLives(before, after, m.live, h, id);
  }

  lemma {:induction false} MovedLives(before: Ops, after: Ops, live: set<nat>, h: Parent, id: nat)
    requires LiveIs(before, live) && OnlyMoved(before, after, h, id) && id in live && HeldBy(after, h, id)
    ensures LiveIs(after, live)
  {
    forall x: nat
      ensures x in live <==> x in after && after[x].live
    {
      if x in before && x != id && HeldBy(before, h, x) {
        assert after[x] == HeldOrder.Held(before[x], h, after[x].position);
      }
    }
  }

  /** An op let go, or erased, leaves every list. */
  lemma {:induction false} LeaveShows(before: Ops, m: Plain, id: nat, row: Op)
    requires OpsShow(before, m) && id in before && before[id].live && (row.holder.None? || !row.live)
    ensures OpsShow(before[id := row], m.(lists := WithoutAll(m.lists, {id}), live := if row.live then m.live else m.live - {id}))
  {
    var after, lists := before[id := row], WithoutAll(m.lists, {id});
    forall g | g in lists
      ensures Listed(after, g, lists[g])
    {
      LeftList(before, after, g, m.lists[g], id);
    }
  }

  lemma {:induction false} NotElsewhere(ops: Ops, m: Plain, h: Parent, id: nat, g: Parent)
    requires ListsShow(ops, m.lists) && h in m.lists && g in m.lists && g != h && id in m.lists[h]
    ensures Without(m.lists[g], id) == m.lists[g]
  {
    assert Listed(ops, h, m.lists[h]) && Listed(ops, g, m.lists[g]);
    assert HeldBy(ops, h, id) && !HeldBy(ops, g, id);
    NotThere(m.lists[g], id);
  }

  /** Leaving one list is leaving them all. */
  lemma {:induction false} LeavesOne(ops: Ops, m: Plain, h: Parent, id: nat)
    requires ListsShow(ops, m.lists) && h in m.lists && id in m.lists[h]
    ensures WithoutAll(m.lists, {id}) == m.lists[h := Without(m.lists[h], id)]
  {
    forall g | g in m.lists && g != h
      ensures Without(m.lists[g], id) == m.lists[g]
    {
      NotElsewhere(ops, m, h, id, g);
    }
  }

  /** One op put in another's place. */
  lemma {:induction false} SwapShows(before: Ops, after: Ops, m: Plain, h: Parent, gone: nat, id: nat, list: seq<nat>)
    requires OpsShow(before, m) && h in m.lists && gone in m.lists[h] && Swapped(before, after, h, gone, id) && id in m.live
    requires Listed(after, h, list) && id in list
    ensures OpsShow(after, m.(lists := WithoutAll(m.lists, {id})[h := list]))
  {
    var mid := before[gone := before[gone].(holder := None)];
    assert Listed(before, h, m.lists[h]) && HeldBy(before, h, gone);
    LeaveShows(before, m, gone, mid[gone]);
    var m' := m.(lists := WithoutAll(m.lists, {gone}));
    assert OnlyMoved(mid, after, h, id);
    MoveShows(mid, after, m', h, id, list);
    LeavesOne(before, m, h, gone);
    assert WithoutAll(m'.lists, {id})[h := list] == WithoutAll(m.lists, {id})[h := list];
  }

  /** A whole list set: its ops leave every other list. */
  lemma {:induction false} SetShows(before: Ops, after: Ops, m: Plain, h: Parent, list: seq<nat>)
    requires OpsShow(before, m) && HeldOrder.SetTo(before, after, h, list, |list|) && h in m.lists
    requires (forall x | x in list :: x in m.live) && forall x | x in m.lists[h] :: x in list
    ensures OpsShow(after, m.(lists := WithoutAll(m.lists, set x | x in list)[h := list]))
  {
    var out := set x | x in list;
    assert list[..|list|] == list;
    SetLives(before, after, m.live, h, list);
    assert Listed(before, h, m.lists[h]);
    SetIsExact(before, after, h, list);
    var lists := WithoutAll(m.lists, out)[h := list];
    forall g | g in lists
      ensures Listed(after, g, lists[g])
    {
      if g != h {
        SetLeaves(before, after, h, list, g, m.lists[g]);
      }
    }
  }

  lemma {:induction false} SetLives(before: Ops, after: Ops, live: set<nat>, h: Parent, list: seq<nat>)
    requires LiveIs(before, live) && HeldOrder.SetTo(before, after, h, list, |list|) && forall x | x in list :: x in live
    ensures LiveIs(after, live) && forall x | x in list :: HeldBy(after, h, x)
  {
    assert list[..|list|] == list;
    forall x | x in list
      ensures HeldBy(after, h, x)
    {
      var j: nat :| j < |list| && list[j] == x;
    }
  }

  lemma {:induction false} SetLeaves(before: Ops, after: Ops, h: Parent, list: seq<nat>, g: Parent, s: seq<nat>)
    requires HeldOrder.SetTo(before, after, h, list, |list|) && g != h && Listed(before, g, s) && forall x | x in list :: HeldBy(after, h, x)
    ensures Listed(after, g, Prune(s, set x | x in list))
  {
    var out := set x | x in list;
    assert list[..|list|] == list;
    forall k: nat | k < |s| && s[k] !in out
      ensures s[k] in before && s[k] in after && after[s[k]] == before[s[k]]
    {
      assert s[k] in s;
    }
    assert SortedBut(after, s, out);
    PruneSorts(after, s, out);
    PruneMembers(s, out);
  }

  // ----- The database shows the sequences.

  ghost predicate Shows(db: Db, m: Plain)
    reads db
  {
    db.Valid() && db.next.Keys == m.lists.Keys && db.parts.Keys == m.parts && OpsShow(db.ops, m)
  }

  lemma {:induction false} NewHolderShows(ops: Ops, next: map<Parent, nat>, m: Plain, h: Parent)
    requires OpsShow(ops, m) && Spaced(ops, next) && h !in next
    ensures OpsShow(ops, m.(lists := m.lists[h := []]))
  {
    assert SpacedAt(ops, next, h);
    assert Listed(ops, h, []);
  }

  lemma {:induction false} NewOpShows(ops: Ops, m: Plain, id: nat, op: Op)
    requires OpsShow(ops, m) && id !in ops && op.live && op.holder.None?
    ensures OpsShow(ops[id := op], m.(known := m.known + {id}, live := m.live + {id}))
  {
    var more := ops[id := op];
    forall h | h in m.lists
      ensures Listed(more, h, m.lists[h])
    {
      var s := m.lists[h];
      assert Listed(ops, h, s);
      forall i: nat, j: nat | i < j < |s|
        ensures Before(more, s[i], s[j])
      {
        assert Before(ops, s[i], s[j]);
      }
    }
  }

  method Add(db: Db, ghost m: Plain, e: Edit)
    requires (e.EnterPartition? || e.AddHolder? || e.AddOp?) && Shows(db, m) && Allowed(m, e)
    modifies db
    ensures Shows(db, Effect(m, e))
  {
    if e.EnterPartition? {
      db.EnterPartition(e.part);
    } else if e.AddHolder? {
      NewHolderShows(db.ops, db.next, m, e.h);
      db.AddHolder(e.h, e.owner);
    } else {
      NewOpShows(db.ops, m, e.id, Op(e.part, true, None, 0));
      db.AddOp(e.id, e.part);
    }
  }

  method MoveIn(db: Db, ghost m: Plain, e: Edit)
    requires (e.Append? || e.InsertAt?) && Shows(db, m) && Allowed(m, e)
    modifies db
    ensures Shows(db, Effect(m, e))
  {
    ghost var before := db.ops;
    if e.Append? {
      db.AppendHeld(e.h, e.id, m.lists[e.h]);
      MoveShows(before, db.ops, m, e.h, e.id, Without(m.lists[e.h], e.id) + [e.id]);
    } else {
      db.InsertHeld(e.block, e.index, e.id, m.lists[Block(e.block)]);
      MoveShows(before, db.ops, m, Block(e.block), e.id, Inserted(m.lists[Block(e.block)], e.index, e.id));
    }
  }

  method SwapIn(db: Db, ghost m: Plain, e: Edit)
    requires e.Replace? && Shows(db, m) && Allowed(m, e)
    modifies db
    ensures Shows(db, Effect(m, e))
  {
    ghost var before, h := db.ops, Block(e.block);
    ghost var s := m.lists[h];
    var ok;
    ghost var k;
    ok, k := db.ReplaceHeld(e.block, e.gone, e.id, s);
    if ok {
      SwapEffect(before, db.ops, m, e, s, k);
    }
  }

  lemma {:induction false} SwapEffect(before: Ops, after: Ops, m: Plain, e: Edit, s: seq<nat>, k: nat)
    requires OpsShow(before, m) && e.Replace? && Allowed(m, e) && s == m.lists[Block(e.block)] && k < |s| && s[k] == e.gone
    requires Swapped(before, after, Block(e.block), e.gone, e.id) && Listed(after, Block(e.block), Replaced(s, k, e.id))
    ensures OpsShow(after, Effect(m, e))
  {
    assert Listed(before, Block(e.block), s);
    OnePlace(before, s, k, IndexOf(s, e.gone));
    SwapShows(before, after, m, Block(e.block), e.gone, e.id, Replaced(s, k, e.id));
  }

  lemma {:induction false} OnePlace(ops: Ops, s: seq<nat>, i: nat, j: nat)
    requires Sorted(ops, s) && i < |s| && j < |s| && s[i] == s[j]
    ensures i == j
  {
  }

  method TakeOut(db: Db, ghost m: Plain, e: Edit)
    requires e.Remove? && Shows(db, m) && Allowed(m, e)
    modifies db
    ensures Shows(db, Effect(m, e))
  {
    ghost var before, s := db.ops, m.lists[e.h];
    assert Listed(db.ops, e.h, s);
    var ok := db.RemoveHeld(e.h, e.id, s);
    if ok {
      LeaveShows(before, m, e.id, before[e.id].(holder := None));
      LeavesOne(before, m, e.h, e.id);
    } else {
      NotThere(s, e.id);
      assert m.lists[e.h := Without(s, e.id)] == m.lists;
    }
  }

  method Erase(db: Db, ghost m: Plain, e: Edit)
    requires e.Kill? && Shows(db, m) && Allowed(m, e)
    modifies db
    ensures Shows(db, Effect(m, e))
  {
    ghost var before := db.ops;
    db.KillOp(e.id);
    if e.id in before && before[e.id].live {
      LeaveShows(before, m, e.id, before[e.id].(live := false));
    } else {
      DeadNowhere(before, m, e.id);
    }
  }

  /** An op that is not live is in no list. */
  lemma {:induction false} DeadNowhere(ops: Ops, m: Plain, id: nat)
    requires OpsShow(ops, m) && id !in m.live
    ensures WithoutAll(m.lists, {id}) == m.lists && m.live - {id} == m.live
  {
    forall h | h in m.lists
      ensures Without(m.lists[h], id) == m.lists[h]
    {
      assert Listed(ops, h, m.lists[h]);
      NotThere(m.lists[h], id);
    }
  }

  method SetAll(db: Db, ghost m: Plain, e: Edit)
    requires e.SetTo? && Shows(db, m) && Allowed(m, e)
    modifies db
    ensures Shows(db, Effect(m, e))
  {
    ghost var before, next := db.ops, db.next;
    assert Listed(before, e.h, m.lists[e.h]);
    db.SetHeld(e.h, e.list);
    SetShows(before, db.ops, m, e.h, e.list);
    SetSpaces(before, db.ops, next, e.h, e.list);
  }

  method Make(db: Db, ghost m: Plain, e: Edit)
    requires Shows(db, m) && Allowed(m, e)
    modifies db
    ensures Shows(db, Effect(m, e))
  {
    if e.EnterPartition? || e.AddHolder? || e.AddOp? {
      Add(db, m, e);
    } else if e.Append? || e.InsertAt? {
      MoveIn(db, m, e);
    } else if e.Replace? {
      SwapIn(db, m, e);
    } else if e.SetTo? {
      SetAll(db, m, e);
    } else if e.Look? {
      var _ := db.Held(e.h);
    } else if e.Remove? {
      TakeOut(db, m, e);
    } else {
      Erase(db, m, e);
    }
  }

  /** A run of edits from an empty database shows the sequences the edits make. */
  method Run(edits: seq<Edit>) returns (db: Db)
    requires AllAllowed(Empty, edits)
    ensures fresh(db) && Shows(db, Play(Empty, edits))
  {
    db := new Db();
    ghost var m := Empty;
    for i := 0 to |edits|
      invariant fresh(db) && Shows(db, m)
      invariant AllAllowed(m, edits[i..]) && Play(m, edits[i..]) == Play(Empty, edits)
    {
      assert edits[i..][1..] == edits[i + 1..];
      Make(db, m, edits[i]);
      m := Effect(m, edits[i]);
    }
  }

  /** After any run a holder's list is exactly its sequence. */
  method HeldAfter(edits: seq<Edit>, h: Parent) returns (found: seq<nat>)
    requires AllAllowed(Empty, edits) && h in Play(Empty, edits).lists
    ensures found == Play(Empty, edits).lists[h]
  {
    var db := Run(edits);
    found := db.Held(h);
    ListedOnce(db.ops, found, Play(Empty, edits).lists[h]);
  }
}
