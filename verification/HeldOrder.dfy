/**
  What a holder's list becomes when one row is written: the facts that make
  gap-numbered positions act like a sequence.
 */
module HeldOrder {
  import opened Options
  import opened HeldLists

  /** How far apart a renumbering sets positions. */
  const STRIDE: nat := 256
  const U32: nat := 0x1_0000_0000
  const LIMIT: nat := 0xffff_ffff - 2 * STRIDE
  /** The most ops a holder may hold for its positions to fit. */
  const MAX_HELD: nat := 0x100_0000 - 4

  function Without(s: seq<nat>, id: nat): seq<nat> { Prune(s, {id}) }

  /** The list with the op put in at `k`, wherever it was before. */
  function Inserted(s: seq<nat>, k: nat, id: nat): seq<nat>
    requires k <= |s|
  {
    Without(s[..k], id) + [id] + Without(s[k..], id)
  }

  /** The list with the op in place of the one at `k`. */
  function Replaced(s: seq<nat>, k: nat, id: nat): seq<nat>
    requires k < |s|
  {
    Without(s[..k], id) + [id] + Without(s[k + 1..], id)
  }

  lemma {:induction false} InsertedLast(s: seq<nat>, id: nat)
    ensures Inserted(s, |s|, id) == Without(s, id) + [id]
  {
    assert s[..|s|] == s && s[|s|..] == [];
  }

  function Held(op: Op, h: Parent, position: nat): Op { op.(holder := Some(h), position := position) }

  /** Positions of what `h` holds: positive, below its counter, no two the same. */
  ghost predicate SpacedAt(ops: Ops, next: map<Parent, nat>, h: Parent)
  {
    && (forall id | HeldBy(ops, h, id) :: h in next && 0 < ops[id].position < next[h])
    && (forall a, b | HeldBy(ops, h, a) && HeldBy(ops, h, b) && ops[a].position == ops[b].position :: a == b)
  }

  ghost predicate Spaced(ops: Ops, next: map<Parent, nat>)
  {
    (forall h: Parent :: SpacedAt(ops, next, h)) && forall h | h in next :: 0 < next[h] < U32
  }

  lemma {:induction false} OpsInList(ops: Ops, h: Parent, s: seq<nat>, k: nat)
    requires Listed(ops, h, s) && k < |s|
    ensures HeldBy(ops, h, s[k])
  {
  }

  /** An op written elsewhere leaves the list. */
  lemma {:induction false} LeftList(ops: Ops, after: Ops, h: Parent, s: seq<nat>, id: nat)
    requires Listed(ops, h, s) && id in ops && id in after && after == ops[id := after[id]] && !HeldBy(after, h, id)
    ensures Listed(after, h, Without(s, id))
  {
    assert SortedBut(after, s, {id});
    PruneSorts(after, s, {id});
    PruneMembers(s, {id});
  }

  /** An op held at a position that splits the list at `k` joins it there. */
  lemma {:induction false} JoinedList(ops: Ops, h: Parent, s: seq<nat>, k: nat, id: nat, position: nat)
    requires Listed(ops, h, s) && k <= |s| && id in ops && ops[id].live
    requires forall i: nat | i < k && s[i] != id :: s[i] in ops && ops[s[i]].position < position
    requires forall i: nat | k <= i < |s| && s[i] != id :: s[i] in ops && position < ops[s[i]].position
    ensures Listed(ops[id := Held(ops[id], h, position)], h, Inserted(s, k, id))
  {
    var after := ops[id := Held(ops[id], h, position)];
    var a, b := Without(s[..k], id), Without(s[k..], id);
    PiecesSort(ops, after, s, k, id, position);
    Concatenated(after, a, id, b);
    PruneMembers(s[..k], {id});
    PruneMembers(s[k..], {id});
    JoinedMembers(ops, h, s, k, id, position, a, b);
  }

  lemma {:induction false} JoinedMembers(ops: Ops, h: Parent, s: seq<nat>, k: nat, id: nat, position: nat, a: seq<nat>, b: seq<nat>)
    requires id in ops && ops[id].live && k <= |s| && forall x: nat :: x in s <==> HeldBy(ops, h, x)
    requires forall x: nat :: x in a <==> x in s[..k] && x != id
    requires forall x: nat :: x in b <==> x in s[k..] && x != id
    ensures forall x: nat :: x in a + [id] + b <==> HeldBy(ops[id := Held(ops[id], h, position)], h, x)
  {
    assert s == s[..k] + s[k..];
    forall x: nat
      ensures x in a + [id] + b <==> HeldBy(ops[id := Held(ops[id], h, position)], h, x)
    {
      assert x in s <==> x in s[..k] || x in s[k..];
    }
  }

  lemma {:induction false} PiecesSort(ops: Ops, after: Ops, s: seq<nat>, k: nat, id: nat, position: nat)
    requires Sorted(ops, s) && k <= |s| && id in after && after == ops[id := after[id]] && after[id].position == position
    requires forall i: nat | i < k && s[i] != id :: s[i] in ops && ops[s[i]].position < position
    requires forall i: nat | k <= i < |s| && s[i] != id :: s[i] in ops && position < ops[s[i]].position
    ensures Sorted(after, Without(s[..k], id)) && Sorted(after, Without(s[k..], id))
    ensures (forall x | x in Without(s[..k], id) :: Before(after, x, id)) && forall x | x in Without(s[k..], id) :: Before(after, id, x)
  {
    assert SortedBut(after, s[..k], {id}) && SortedBut(after, s[k..], {id});
    PruneSorts(after, s[..k], {id});
    PruneSorts(after, s[k..], {id});
    PruneMembers(s[..k], {id});
    PruneMembers(s[k..], {id});
    forall x | x in Without(s[..k], id)
      ensures Before(after, x, id)
    {
      var i: nat :| i < k && s[..k][i] == x;
      assert s[i] == x;
    }
    forall x | x in Without(s[k..], id)
      ensures Before(after, id, x)
    {
      var i: nat :| i < |s| - k && s[k..][i] == x;
      assert s[k + i] == x;
    }
  }

  lemma {:induction false} Concatenated(ops: Ops, a: seq<nat>, id: nat, b: seq<nat>)
    requires Sorted(ops, a) && Sorted(ops, b)
    requires (forall x | x in a :: Before(ops, x, id)) && forall x | x in b :: Before(ops, id, x)
    ensures Sorted(ops, a + [id] + b)
  {
    var s := a + [id] + b;
    forall i: nat, j: nat | i < j < |s|
      ensures Before(ops, s[i], s[j])
    {
      if i < |a| {
        assert a[i] in a;
      }
      if j > |a| {
        assert b[j - |a| - 1] in b;
      }
    }
  }

  /** One op held at a free position below the counter keeps the spacing. */
  lemma {:induction false} HoldSpaces(ops: Ops, next: map<Parent, nat>, h: Parent, id: nat, position: nat)
    requires Spaced(ops, next) && id in ops && ops[id].live && h in next && 0 < position < next[h]
    requires forall x | HeldBy(ops, h, x) && x != id :: ops[x].position != position
    ensures Spaced(ops[id := Held(ops[id], h, position)], next)
  {
    var after := ops[id := Held(ops[id], h, position)];
    forall g: Parent
      ensures SpacedAt(after, next, g)
    {
      assert SpacedAt(ops, next, g);
      assert forall x | HeldBy(after, g, x) && x != id :: HeldBy(ops, g, x);
    }
  }

  lemma {:induction false} ReleaseSpaces(ops: Ops, next: map<Parent, nat>, id: nat, row: Op)
    requires Spaced(ops, next) && id in ops && (row.holder.None? || !row.live)
    ensures Spaced(ops[id := row], next)
  {
    var after := ops[id := row];
    forall g: Parent
      ensures SpacedAt(after, next, g)
    {
      assert SpacedAt(ops, next, g);
      assert !HeldBy(after, g, id);
      assert forall x | HeldBy(after, g, x) :: HeldBy(ops, g, x) && after[x] == ops[x];
    }
  }

  // ----- Renumbering.

  /** The first `n` ops of the list held by `h` a stride apart, the rest as they were. */
  ghost predicate SetTo(before: Ops, after: Ops, h: Parent, list: seq<nat>, n: nat)
  {
    && n <= |list| && after.Keys == before.Keys
    && (forall j: nat | j < n :: list[j] in before && after[list[j]] == Held(before[list[j]], h, (j + 1) * STRIDE))
    && (forall id | id in before && id !in list[..n] :: after[id] == before[id])
  }

  /** Setting a holder's ops gives exactly the list if and only if everything it held is in the list. */
  lemma {:induction false} SetIsExact(before: Ops, after: Ops, h: Parent, list: seq<nat>)
    requires SetTo(before, after, h, list, |list|) && forall id | id in list :: id in before && before[id].live
    ensures Listed(after, h, list) <==> forall id | HeldBy(before, h, id) :: id in list
  {
  }

  /** Setting two held ops to one of them leaves the other in the holder. */
  lemma {:induction false} SetKeepsStrangers(h: Parent)
    ensures var before := map[0 := Op(0, true, Some(h), STRIDE), 1 := Op(0, true, Some(h), 2 * STRIDE)];
            var after := before[1 := Op(0, true, Some(h), STRIDE)];
            SetTo(before, after, h, [1], 1) && !Listed(after, h, [1]) && Listed(after, h, [0, 1])
  {
    var after := map[0 := Op(0, true, Some(h), STRIDE), 1 := Op(0, true, Some(h), STRIDE)];
    assert HeldBy(after, h, 0) && 0 !in [1];
    assert [1][..1] == [1];
  }

  /** A renumbered holder is spaced, and the others stay so. */
  lemma {:induction false} SetSpaces(before: Ops, after: Ops, next: map<Parent, nat>, h: Parent, list: seq<nat>)
    requires SetTo(before, after, h, list, |list|) && |list| <= MAX_HELD
    requires forall id | HeldBy(before, h, id) :: id in list
    requires forall g: Parent | g != h :: SpacedAt(before, next, g)
    requires forall g | g in next && g != h :: 0 < next[g] < U32
    ensures Spaced(after, next[h := (|list| + 1) * STRIDE])
  {
    var all := next[h := (|list| + 1) * STRIDE];
    assert list[..|list|] == list;
    forall g: Parent
      ensures SpacedAt(after, all, g)
    {
      if g == h {
        forall id | HeldBy(after, h, id)
          ensures exists j: nat :: j < |list| && list[j] == id && after[id].position == (j + 1) * STRIDE
        {
          assert id !in list ==> HeldBy(before, h, id);
          var j: nat :| j < |list| && list[j] == id;
        }
      } else {
        assert SpacedAt(before, next, g);
        forall id | HeldBy(after, g, id)
          ensures HeldBy(before, g, id) && after[id] == before[id]
        {
          assert forall j: nat | j < |list| :: list[j] != id;
        }
      }
    }
  }

  /** What a write of `id` and a renumbering of `h` leave of another holder's list. */
  lemma {:induction false} OtherList(before: Ops, after: Ops, h: Parent, id: nat, g: Parent, s: seq<nat>)
    requires g != h && Listed(before, g, s) && OnlyMoved(before, after, h, id) && !HeldBy(after, g, id)
    ensures Listed(after, g, Without(s, id))
  {
    forall x | x in s
      ensures HeldBy(before, g, x)
    {
    }
    assert forall x: nat | x != id :: HeldBy(after, g, x) <==> HeldBy(before, g, x);
    forall k: nat | k < |s| && s[k] != id
      ensures s[k] in after && after[s[k]] == before[s[k]]
    {
      assert s[k] in s;
    }
    assert SortedBut(after, s, {id});
    PruneSorts(after, s, {id});
    PruneMembers(s, {id});
  }

  lemma {:induction false} SetStep(before: Ops, mid: Ops, after: Ops, h: Parent, list: seq<nat>, n: nat)
    requires SetTo(before, mid, h, list, n) && n < |list| && list[n] in before && list[n] !in list[..n]
    requires after == mid[list[n] := Held(mid[list[n]], h, (n + 1) * STRIDE)]
    ensures SetTo(before, after, h, list, n + 1)
  {
  }

  /** Only the positions of what `h` holds changed. */
  ghost predicate Renumbered(before: Ops, after: Ops, h: Parent)
  {
    && after.Keys == before.Keys
    && (forall x | x in before && !HeldBy(before, h, x) :: after[x] == before[x])
    && (forall x | HeldBy(before, h, x) :: after[x] == Held(before[x], h, after[x].position))
  }

  lemma {:induction false} SetRenumbers(before: Ops, after: Ops, h: Parent, list: seq<nat>)
    requires SetTo(before, after, h, list, |list|) && forall id: nat :: id in list <==> HeldBy(before, h, id)
    ensures Renumbered(before, after, h)
  {
  }

  /** Besides positions in `h`, only `id` changed. */
  ghost predicate OnlyMoved(before: Ops, after: Ops, h: Parent, id: nat)
  {
    && after.Keys == before.Keys
    && (forall x | x in before && x != id && !HeldBy(before, h, x) :: after[x] == before[x])
    && (forall x | HeldBy(before, h, x) && x != id :: after[x] == Held(before[x], h, after[x].position))
  }

  lemma {:induction false} ListDistinct(ops: Ops, h: Parent, s: seq<nat>)
    requires Listed(ops, h, s)
    ensures (forall i: nat, j: nat | i < j < |s| :: s[i] != s[j]) && forall id | id in s :: id in ops && ops[id].live
  {
  }

  lemma {:induction false} CounterSpaces(ops: Ops, next: map<Parent, nat>, h: Parent, more: nat)
    requires Spaced(ops, next) && h in next && next[h] <= more < U32
    ensures Spaced(ops, next[h := more]) && forall id | HeldBy(ops, h, id) :: ops[id].position < next[h]
  {
    assert SpacedAt(ops, next, h);
    var after := next[h := more];
    forall g: Parent
      ensures SpacedAt(ops, after, g)
    {
      assert SpacedAt(ops, next, g);
    }
  }

  lemma {:induction false} RenumberedTwice(a: Ops, b: Ops, c: Ops, h: Parent)
    requires Renumbered(a, b, h) && Renumbered(b, c, h)
    ensures Renumbered(a, c, h)
  {
  }

  lemma {:induction false} MovedAfter(a: Ops, b: Ops, c: Ops, h: Parent, id: nat)
    requires Renumbered(a, b, h) && id in b && id in c && c == b[id := c[id]]
    ensures OnlyMoved(a, c, h, id)
  {
  }

  lemma {:induction false} NotThere(s: seq<nat>, id: nat)
    requires id !in s
    ensures Without(s, id) == s
  {
    if s != [] {
      NotThere(s[1..], id);
      assert s == [s[0]] + s[1..];
    }
  }

  lemma {:induction false} JoinedLast(ops: Ops, h: Parent, s: seq<nat>, id: nat, position: nat)
    requires Listed(ops, h, s) && id in ops && ops[id].live && forall x | HeldBy(ops, h, x) :: ops[x].position < position
    ensures Listed(ops[id := Held(ops[id], h, position)], h, Without(s, id) + [id])
  {
    var k := |s|;
    forall i: nat | i < k
      ensures s[i] in ops && ops[s[i]].position < position
    {
      OpsInList(ops, h, s, i);
    }
    JoinedList(ops, h, s, k, id, position);
    InsertedLast(s, id);
  }

  /** The position an insert at `index` goes above. */
  function Below(ops: Ops, s: seq<nat>, index: nat): nat
    requires index < |s| && (index > 0 ==> s[index - 1] in ops)
  {
    if index == 0 then 0 else ops[s[index - 1]].position
  }

  lemma {:induction false} RenumberedGap(before: Ops, after: Ops, h: Parent, s: seq<nat>, index: nat)
    requires SetTo(before, after, h, s, |s|) && index < |s|
    ensures s[index] in after && (index > 0 ==> s[index - 1] in after)
    ensures after[s[index]].position - Below(after, s, index) == STRIDE
  {
  }

  /** A position strictly between two neighbours splits the list between them. */
  lemma {:induction false} Splits(ops: Ops, next: map<Parent, nat>, h: Parent, s: seq<nat>, index: nat, position: nat)
    requires Listed(ops, h, s) && Spaced(ops, next) && index < |s| && s[index] in ops && (index > 0 ==> s[index - 1] in ops)
    requires Below(ops, s, index) < position < ops[s[index]].position
    ensures forall i: nat | i < index :: s[i] in ops && ops[s[i]].position < position
    ensures forall i: nat | index <= i < |s| :: s[i] in ops && position < ops[s[i]].position
    ensures h in next && position < next[h] && forall x | HeldBy(ops, h, x) :: ops[x].position != position
  {
    assert SpacedAt(ops, next, h);
    OpsInList(ops, h, s, index);
    assert forall i: nat | i < index - 1 :: Before(ops, s[i], s[index - 1]);
    assert forall i: nat | index < i < |s| :: Before(ops, s[index], s[i]);
    forall x | HeldBy(ops, h, x)
      ensures ops[x].position != position
    {
      var i: nat :| i < |s| && s[i] == x;
    }
  }

  lemma {:induction false} CutIsWithout(s: seq<nat>, k: nat)
    requires k < |s| && forall i: nat, j: nat | i < j < |s| :: s[i] != s[j]
    ensures Without(s, s[k]) == s[..k] + s[k + 1..]
  {
    if k == 0 {
      NotThere(s[1..], s[0]);
    } else {
      CutIsWithout(s[1..], k - 1);
      assert s[..k] + s[k + 1..] == [s[0]] + (s[1..][..k - 1] + s[1..][k..]);
    }
  }

  /** With one op gone, its position splits the list where it was. */
  lemma {:induction false} ReplaceReady(before: Ops, after: Ops, next: map<Parent, nat>, h: Parent, s: seq<nat>, k: nat, gone: nat, id: nat, position: nat)
    requires Listed(before, h, s) && Spaced(before, next) && k < |s| && s[k] == gone && HeldBy(before, h, gone)
    requires after == before[gone := before[gone].(holder := None)] && position == before[gone].position
    ensures Listed(after, h, s[..k] + s[k + 1..]) && Spaced(after, next) && h in next && 0 < position < next[h]
    ensures var t := s[..k] + s[k + 1..];
            && (forall i: nat | i < k :: t[i] in after && after[t[i]].position < position)
            && (forall i: nat | k <= i < |t| :: t[i] in after && position < after[t[i]].position)
    ensures forall x | HeldBy(after, h, x) :: after[x].position != position
  {
    assert SpacedAt(before, next, h);
    ListDistinct(before, h, s);
    LeftList(before, after, h, s, gone);
    CutIsWithout(s, k);
    ReleaseSpaces(before, next, gone, after[gone]);
    forall i: nat | i < |s| && i != k
      ensures HeldBy(before, h, s[i]) && before[s[i]].position != position && (before[s[i]].position < position <==> i < k)
    {
      OpsInList(before, h, s, i);
      assert if i < k then Before(before, s[i], s[k]) else Before(before, s[k], s[i]);
    }
  }

  /** A holder's counter moves no other holder's. */
  lemma {:induction false} OthersSpaced(ops: Ops, next: map<Parent, nat>, after: map<Parent, nat>, h: Parent)
    requires Spaced(ops, next) && h in after && after == next[h := after[h]]
    ensures forall g: Parent | g != h :: SpacedAt(ops, after, g)
    ensures forall g | g in after && g != h :: 0 < after[g] < U32
  {
    forall g: Parent | g != h
      ensures SpacedAt(ops, after, g)
    {
      assert SpacedAt(ops, next, g);
    }
  }

  /** Cutting an op out and inserting another in its place replaces it. */
  lemma {:induction false} CutAndInsert(s: seq<nat>, k: nat, id: nat)
    requires k < |s|
    ensures Inserted(s[..k] + s[k + 1..], k, id) == Replaced(s, k, id)
  {
    var t := s[..k] + s[k + 1..];
    assert t[..k] == s[..k] && t[k..] == s[k + 1..];
  }

  /** One op let go and another held in its place; no other row changes. */
  ghost predicate Swapped(before: Ops, after: Ops, h: Parent, gone: nat, id: nat)
  {
    && gone in before && id in before && after.Keys == before.Keys
    && (forall x | x in before && x != gone && x != id :: after[x] == before[x])
    && (gone != id ==> after[gone] == before[gone].(holder := None))
    && after[id] == Held(before[id], h, before[gone].position)
  }

  lemma {:induction false} SwapLists(before: Ops, mid: Ops, next: map<Parent, nat>, h: Parent, s: seq<nat>, k: nat, gone: nat, id: nat)
    requires Listed(before, h, s) && Spaced(before, next) && k < |s| && s[k] == gone && HeldBy(before, h, gone)
    requires id in before && before[id].live && mid == before[gone := before[gone].(holder := None)]
    ensures var after := mid[id := Held(mid[id], h, before[gone].position)];
            Listed(after, h, Replaced(s, k, id)) && Spaced(after, next) && Swapped(before, after, h, gone, id)
  {
    var position := before[gone].position;
    ReplaceReady(before, mid, next, h, s, k, gone, id, position);
    JoinedList(mid, h, s[..k] + s[k + 1..], k, id, position);
    CutAndInsert(s, k, id);
    HoldSpaces(mid, next, h, id, position);
  }
}
