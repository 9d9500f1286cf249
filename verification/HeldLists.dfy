/**
  The op lists of the store. Each partition lists its share of every holder's
  ops, sorted by position, and logs the ops whose rows have been rewritten. A
  refresh drops logged ops wherever they are listed and inserts them anew from
  their rows.
 */
module HeldLists {
  import opened Options

  datatype Parent = Block(id: nat) | Region(id: nat)

  datatype Op = Op(part: nat, live: bool, holder: Option<Parent>, position: nat)

  type Ops = map<nat, Op>

  datatype Lists = Lists(built: bool, placed: map<nat, Parent>, lists: map<Parent, seq<nat>>)

  datatype Part = Part(held: Lists, heldLog: set<nat>)

  const NoPart := Part(Lists(false, map[], map[]), {})

  predicate HeldBy(ops: Ops, h: Parent, id: nat) { id in ops && ops[id].live && ops[id].holder == Some(h) }

  predicate InPart(ops: Ops, p: nat, id: nat) { id in ops && ops[id].part == p }

  // ----- Position order.

  predicate Before(ops: Ops, a: nat, b: nat)
  {
    a in ops && b in ops && (ops[a].position < ops[b].position || (ops[a].position == ops[b].position && a < b))
  }

  /** The ops of the list not in `out` are in position order. */
  ghost predicate SortedBut(ops: Ops, s: seq<nat>, out: set<nat>)
  {
    forall i: nat, j: nat | i < j < |s| && s[i] !in out && s[j] !in out :: Before(ops, s[i], s[j])
  }

  ghost predicate Sorted(ops: Ops, s: seq<nat>) { forall i: nat, j: nat | i < j < |s| :: Before(ops, s[i], s[j]) }

  /** `s` lists exactly the live ops `h` holds, in position order. */
  ghost predicate Listed(ops: Ops, h: Parent, s: seq<nat>)
  {
    Sorted(ops, s) && forall id: nat :: id in s <==> HeldBy(ops, h, id)
  }

  /** A holder's list is determined by the rows. */
  lemma {:induction false} ListedOnce(ops: Ops, s: seq<nat>, t: seq<nat>)
    requires Sorted(ops, s) && Sorted(ops, t) && forall id: nat :: id in s <==> id in t
    ensures s == t
    decreases |s|
  {
    assert t != [] ==> t[0] in t;
    if s != [] {
      assert s[0] in t;
      assert t[0] in s;
      var i: nat :| i < |t| && t[i] == s[0];
      var j: nat :| j < |s| && s[j] == t[0];
      assert i == 0;
      TailMembers(ops, s);
      TailMembers(ops, t);
      ListedOnce(ops, s[1..], t[1..]);
    }
  }

  lemma {:induction false} TailMembers(ops: Ops, s: seq<nat>)
    requires Sorted(ops, s) && s != []
    ensures Sorted(ops, s[1..]) && forall id: nat :: id in s[1..] <==> id in s && id != s[0]
  {
    assert s == [s[0]] + s[1..];
    assert forall k: nat | k < |s[1..]| :: s[1..][k] == s[k + 1] && s[k + 1] != s[0];
  }

  /** `id` put where its position says. */
  function Insert(ops: Ops, s: seq<nat>, id: nat): seq<nat>
  {
    if s == [] || Before(ops, id, s[0]) then [id] + s else [s[0]] + Insert(ops, s[1..], id)
  }

  lemma {:induction false} InsertMembers(ops: Ops, s: seq<nat>, id: nat)
    ensures forall x: nat :: x in Insert(ops, s, id) <==> x in s || x == id
  {
    if !(s == [] || Before(ops, id, s[0])) {
      InsertMembers(ops, s[1..], id);
      assert s == [s[0]] + s[1..];
    }
  }

  lemma {:induction false} InsertSorts(ops: Ops, s: seq<nat>, id: nat)
    requires Sorted(ops, s) && id in ops && id !in s && forall x | x in s :: x in ops
    ensures Sorted(ops, Insert(ops, s, id))
  {
    if s != [] && !Before(ops, id, s[0]) {
      var rest := Insert(ops, s[1..], id);
      InsertSorts(ops, s[1..], id);
      InsertMembers(ops, s[1..], id);
      assert Before(ops, s[0], id);
      forall k: nat | k < |rest|
        ensures Before(ops, s[0], rest[k])
      {
        assert rest[k] in rest;
        if rest[k] != id {
          var m: nat :| m < |s[1..]| && s[1..][m] == rest[k];
          assert s[m + 1] == rest[k];
        }
      }
    }
  }

  /** The list without the ops in `out`. */
  function Prune(s: seq<nat>, out: set<nat>): seq<nat>
  {
    if s == [] then [] else (if s[0] in out then [] else [s[0]]) + Prune(s[1..], out)
  }

  lemma {:induction false} PruneMembers(s: seq<nat>, out: set<nat>)
    ensures forall x: nat :: x in Prune(s, out) <==> x in s && x !in out
  {
    if s != [] {
      PruneMembers(s[1..], out);
      assert s == [s[0]] + s[1..];
    }
  }

  lemma {:induction false} PruneSorts(ops: Ops, s: seq<nat>, out: set<nat>)
    requires SortedBut(ops, s, out)
    ensures Sorted(ops, Prune(s, out))
  {
    if s != [] {
      var rest := Prune(s[1..], out);
      PruneSorts(ops, s[1..], out);
      PruneMembers(s[1..], out);
      if s[0] !in out {
        forall k: nat | k < |rest|
          ensures Before(ops, s[0], rest[k])
        {
          assert rest[k] in rest;
          var m: nat :| m < |s[1..]| && s[1..][m] == rest[k];
          assert s[m + 1] == rest[k];
        }
      }
    }
  }

  // ----- One partition's lists.

  function ListOf(l: Lists, h: Parent): seq<nat> { if h in l.lists then l.lists[h] else [] }

  /** Where the op is now is what the lists say. */
  predicate PlacedRight(ops: Ops, l: Lists, id: nat)
    requires id in ops
  {
    if ops[id].live && ops[id].holder.Some? then id in l.placed && l.placed[id] == ops[id].holder.value else id !in l.placed
  }

  /** The lists have exactly the placed ops, each in the list of its place. */
  ghost predicate Members(l: Lists)
  {
    forall h: Parent, id: nat :: id in ListOf(l, h) <==> id in l.placed && l.placed[id] == h
  }

  ghost predicate AllSorted(ops: Ops, l: Lists) { forall h: Parent :: Sorted(ops, ListOf(l, h)) }

  ghost predicate PlacedBut(ops: Ops, p: nat, l: Lists, out: set<nat>)
  {
    && (forall id | id in l.placed :: InPart(ops, p, id))
    && (forall id | InPart(ops, p, id) && id !in out :: PlacedRight(ops, l, id))
  }

  /** The lists are right but for the ops in `out`. */
  ghost predicate KnowsBut(ops: Ops, p: nat, l: Lists, out: set<nat>)
  {
    PlacedBut(ops, p, l, out) && Members(l) && forall h: Parent :: SortedBut(ops, ListOf(l, h), out)
  }

  ghost predicate PartValid(ops: Ops, p: nat, part: Part)
  {
    (part.held.built ==> KnowsBut(ops, p, part.held, part.heldLog)) && forall id | id in part.heldLog :: InPart(ops, p, id)
  }

  function Pruned(l: Lists, out: set<nat>): Lists
  {
    Lists(true, map id | id in l.placed && id !in out :: l.placed[id], map h | h in l.lists :: Prune(l.lists[h], out))
  }

  lemma {:induction false} PrunedMembers(l: Lists, out: set<nat>)
    requires Members(l)
    ensures Members(Pruned(l, out))
  {
    forall h: Parent, id: nat
      ensures id in ListOf(Pruned(l, out), h) <==> id in Pruned(l, out).placed && Pruned(l, out).placed[id] == h
    {
      PruneMembers(ListOf(l, h), out);
      assert id in ListOf(l, h) <==> id in l.placed && l.placed[id] == h;
    }
  }

  lemma {:induction false} PrunedSorts(ops: Ops, l: Lists, out: set<nat>)
    requires forall h: Parent :: SortedBut(ops, ListOf(l, h), out)
    ensures AllSorted(ops, Pruned(l, out))
  {
    forall h: Parent
      ensures Sorted(ops, ListOf(Pruned(l, out), h))
    {
      PruneSorts(ops, ListOf(l, h), out);
    }
  }

  /** The op put into the list it sits in now. */
  function Join(ops: Ops, l: Lists, id: nat): Lists
  {
    if id in ops && ops[id].live && ops[id].holder.Some? then
      var h := ops[id].holder.value;
      l.(placed := l.placed[id := h], lists := l.lists[h := Insert(ops, ListOf(l, h), id)])
    else l
  }

  lemma {:induction false} JoinMembers(ops: Ops, l: Lists, id: nat)
    requires Members(l) && id !in l.placed
    ensures Members(Join(ops, l, id))
  {
    if id in ops && ops[id].live && ops[id].holder.Some? {
      var h := ops[id].holder.value;
      var joined := Join(ops, l, id);
      InsertMembers(ops, ListOf(l, h), id);
      forall g: Parent, x: nat
        ensures x in ListOf(joined, g) <==> x in joined.placed && joined.placed[x] == g
      {
        assert ListOf(joined, g) == if g == h then Insert(ops, ListOf(l, h), id) else ListOf(l, g);
        assert x in ListOf(l, g) <==> x in l.placed && l.placed[x] == g;
      }
    }
  }

  lemma {:induction false} JoinSorts(ops: Ops, p: nat, l: Lists, out: set<nat>, id: nat)
    requires Members(l) && PlacedBut(ops, p, l, out) && AllSorted(ops, l) && id in ops && id !in l.placed
    ensures AllSorted(ops, Join(ops, l, id))
  {
    if ops[id].live && ops[id].holder.Some? {
      var h := ops[id].holder.value;
      var s := ListOf(l, h);
      forall x | x in s
        ensures x in ops && x != id
      {
        assert x in l.placed;
      }
      InsertSorts(ops, s, id);
      assert forall g: Parent :: ListOf(Join(ops, l, id), g) == if g == h then Insert(ops, s, id) else ListOf(l, g);
    }
  }

  lemma {:induction false} JoinPlaces(ops: Ops, p: nat, l: Lists, out: set<nat>, id: nat)
    requires PlacedBut(ops, p, l, out) && InPart(ops, p, id) && id !in l.placed
    ensures PlacedBut(ops, p, Join(ops, l, id), out - {id})
  {
  }

  /** The partition's lists brought up to date. */
  method Refresh(ops: Ops, p: nat, part: Part) returns (l: Lists)
    requires PartValid(ops, p, part)
    ensures l.built && KnowsBut(ops, p, l, {})
  {
    var todo: set<nat>;
    if !part.held.built {
      l, todo := Lists(true, map[], map[]), set id | id in ops && ops[id].part == p;
    } else {
      l, todo := Pruned(part.held, part.heldLog), part.heldLog;
      PrunedMembers(part.held, part.heldLog);
      PrunedSorts(ops, part.held, part.heldLog);
    }
    while todo != {}
      invariant l.built && Members(l) && AllSorted(ops, l) && PlacedBut(ops, p, l, todo)
      invariant forall id | id in todo :: InPart(ops, p, id) && id !in l.placed
      decreases todo
    {
      var id :| id in todo;
      JoinMembers(ops, l, id);
      JoinSorts(ops, p, l, todo, id);
      JoinPlaces(ops, p, l, todo, id);
      l := Join(ops, l, id);
      todo := todo - {id};
    }
  }
}
