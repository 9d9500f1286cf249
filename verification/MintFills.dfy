/**
  When a mint goes on filling a chunk and when it takes a fresh one, told from
  the rows minted before.
 */
module MintFills {
  import opened Options
  import opened Minting

  /** The last row minted into the partition. */
  ghost predicate IsLastOf(events: seq<Event>, p: nat, i: nat)
  {
    i < |events| && events[i].part == p && forall j: nat | i < j < |events| :: events[j].part != p
  }

  /** Nothing was minted since that may not lie above the partition's next row: no row of the module, or none at all for the module. */
  ghost predicate QuietSince(events: seq<Event>, p: nat, i: nat)
  {
    forall j: nat | i < j < |events| :: p != 0 && events[j].part != 0
  }

  /** A partition's open chunk is its last row's, seen when that was minted. */
  ghost predicate OpenIsLast(s: Space, events: seq<Event>)
  {
    && s.minted == |events| && s.moduleMinted == ModuleEvents(events) && s.open.Keys == s.seen.Keys
    && (forall p: nat :: p in s.open <==> exists i: nat :: IsLastOf(events, p, i))
    && (forall p: nat, i: nat | IsLastOf(events, p, i) :: OpenAt(s, events, p, i))
  }

  ghost predicate OpenAt(s: Space, events: seq<Event>, p: nat, i: nat)
    requires i < |events|
  {
    p in s.open && p in s.seen && s.open[p] == events[i].chunk && s.seen[p] == if p == 0 then i + 1 else ModuleEvents(events[..i + 1])
  }

  lemma {:induction false} LastMore(events: seq<Event>, last: Event, p: nat, i: nat)
    ensures IsLastOf(events + [last], p, i) <==> if last.part == p then i == |events| else IsLastOf(events, p, i)
  {
    var all := events + [last];
    assert all[|events|] == last;
    assert forall j: nat | j < |events| :: all[j] == events[j];
  }

  lemma {:induction false} PushKeepsOpen(s: Space, events: seq<Event>, target: nat, t: Space, index: nat, row: nat)
    requires Recorded(s, events) && OpenIsLast(s, events) && Opens(s, target, None, t, index, row)
    ensures OpenIsLast(PushRow(t, target, index), events + [Event(target, index, row)])
  {
    PushCounts(s, events, target, None, t, index, row);
    PushOpensLast(s, events, target, t, index, row);
    OpensPushed(s, events, Event(target, index, row), PushRow(t, target, index));
  }

  lemma {:induction false} OpensPushed(s: Space, events: seq<Event>, last: Event, after: Space)
    requires OpenIsLast(s, events) && OpenAt(after, events + [last], last.part, |events|)
    requires after.minted == |events + [last]| && after.moduleMinted == ModuleEvents(events + [last])
    requires after.open.Keys == s.open.Keys + {last.part} == after.seen.Keys
    requires forall p: nat | p in s.open && p != last.part :: after.open[p] == s.open[p] && after.seen[p] == s.seen[p]
    ensures OpenIsLast(after, events + [last])
  {
    var all := events + [last];
    forall p: nat, i: nat
      ensures IsLastOf(all, p, i) <==> if last.part == p then i == |events| else IsLastOf(events, p, i)
    {
      LastMore(events, last, p, i);
    }
    forall p: nat, i: nat | IsLastOf(all, p, i)
      ensures OpenAt(after, all, p, i)
    {
      if p != last.part {
        assert OpenAt(s, events, p, i);
        OthersOpen(s, events, last, after, p, i);
      }
    }
    OpensHaveLast(events, all, last.part, s, after);
  }

  lemma {:induction false} PushOpensLast(s: Space, events: seq<Event>, target: nat, t: Space, index: nat, row: nat)
    requires Recorded(s, events) && Opens(s, target, None, t, index, row)
    ensures OpenAt(PushRow(t, target, index), events + [Event(target, index, row)], target, |events|)
  {
    var all := events + [Event(target, index, row)];
    PushCounts(s, events, target, None, t, index, row);
    assert all[..|events| + 1] == all;
  }

  lemma {:induction false} OthersOpen(s: Space, events: seq<Event>, last: Event, after: Space, p: nat, i: nat)
    requires i < |events| && OpenAt(s, events, p, i) && p in after.open && p in after.seen && after.open[p] == s.open[p] && after.seen[p] == s.seen[p]
    ensures OpenAt(after, events + [last], p, i)
  {
    assert (events + [last])[..i + 1] == events[..i + 1];
  }

  lemma {:induction false} OpensHaveLast(events: seq<Event>, all: seq<Event>, target: nat, s: Space, after: Space)
    requires (forall p: nat :: p in s.open <==> exists i: nat :: IsLastOf(events, p, i)) && after.open.Keys == s.open.Keys + {target}
    requires forall p: nat, i: nat :: IsLastOf(all, p, i) <==> if target == p then i == |events| else IsLastOf(events, p, i)
    ensures forall p: nat :: p in after.open <==> exists i: nat :: IsLastOf(all, p, i)
  {
    forall p: nat
      ensures p in after.open <==> exists i: nat :: IsLastOf(all, p, i)
    {
      if p == target {
        assert IsLastOf(all, p, |events|);
      } else {
        if i: nat :| IsLastOf(events, p, i) {
          assert IsLastOf(all, p, i);
        }
      }
    }
  }

  lemma {:induction false} HistoryOpens(targets: seq<nat>)
    requires History(targets).Some?
    ensures Ascends(History(targets).value.0, History(targets).value.1) && OpenIsLast(History(targets).value.0, History(targets).value.1)
    decreases |targets|
  {
    IdsAscend(targets);
    if targets != [] {
      var before, target := targets[..|targets| - 1], targets[|targets| - 1];
      HistoryOpens(before);
      var (s, events) := History(before).value;
      var t, index, row := MintShape(s, target, None);
      IdSplit(index, row);
      PushKeepsOpen(s, events, target, t, index, row);
    }
  }

  lemma {:induction false} QuietIs(events: seq<Event>, i: nat)
    requires i < |events|
    ensures ModuleEvents(events) >= ModuleEvents(events[..i + 1])
    ensures ModuleEvents(events) == ModuleEvents(events[..i + 1]) <==> forall j: nat | i < j < |events| :: events[j].part != 0
    decreases |events|
  {
    var n := |events| - 1;
    if i == n {
      assert events[..i + 1] == events;
    } else {
      QuietIs(events[..n], i);
      assert events[..n][..i + 1] == events[..i + 1];
      assert forall j: nat | j < n :: events[..n][j] == events[j];
    }
  }

  /**
    In a run without lanes a partition's next row goes on filling the chunk of
    its last one exactly when that has room and nothing was minted since that
    the row must lie above; otherwise it starts a chunk above all others.
   */
  lemma {:induction false} NextFills(targets: seq<nat>, p: nat, c: nat)
    requires History(targets).Some?
    ensures var (s, events) := History(targets).value;
            OpenChunk(s, p, None) == Some(c) <==>
              exists i: nat :: IsLastOf(events, p, i) && events[i].chunk == c && QuietSince(events, p, i) && c in s.chunks && s.chunks[c].len < CHUNK_ROWS
    ensures var (s, events) := History(targets).value;
            OpenChunk(s, p, None).None? && Mint(s, p, None).Some? ==>
              Mint(s, p, None).value.1 == IdAt(s.used, 0) && forall e | e in events :: e.chunk < s.used
  {
    var (s, events) := History(targets).value;
    HistoryOpens(targets);
    Fills(s, events, p, c);
  }

  lemma {:induction false} Fills(s: Space, events: seq<Event>, p: nat, c: nat)
    requires Recorded(s, events) && OpenIsLast(s, events)
    ensures OpenChunk(s, p, None) == Some(c) <==>
              exists i: nat :: IsLastOf(events, p, i) && events[i].chunk == c && QuietSince(events, p, i) && c in s.chunks && s.chunks[c].len < CHUNK_ROWS
  {
    if i: nat :| IsLastOf(events, p, i) {
      QuietIs(events, i);
      assert forall j: nat | IsLastOf(events, p, j) :: j == i;
      OpenIs(s, events, p, i, c);
    }
  }

  lemma {:induction false} OpenIs(s: Space, events: seq<Event>, p: nat, i: nat, c: nat)
    requires Recorded(s, events) && OpenIsLast(s, events) && IsLastOf(events, p, i)
    requires ModuleEvents(events) == ModuleEvents(events[..i + 1]) <==> forall j: nat | i < j < |events| :: events[j].part != 0
    ensures OpenChunk(s, p, None) == Some(c) <==> events[i].chunk == c && QuietSince(events, p, i) && c in s.chunks && s.chunks[c].len < CHUNK_ROWS
  {
    if p == 0 {
      assert QuietSince(events, p, i) <==> i + 1 == |events|;
    }
  }

  // ----- In a lane.

  /** What a task that minted has open: a chunk of its own, or its target's if it has that to itself, seen now. */
  ghost predicate HasOpen(s: Space, target: nat, lane: Lane)
  {
    && target in s.open && target in s.seen && s.open[target] in s.chunks && s.seen[target] == Current(s, target)
    && (s.open[target] >= s.base || (lane.exclusive && target != 0))
  }

  lemma {:induction false} MintOpens(s: Space, target: nat, lane: Lane)
    requires Mint(s, target, Some(lane)).Some?
    ensures HasOpen(Mint(s, target, Some(lane)).value.0, target, lane) && Mint(s, target, Some(lane)).value.0.base == s.base
  {
    assert s.taken * lane.count >= 0;
  }

  /** A task fills the chunk of its last row up before it takes the next of its lane. */
  lemma {:induction false} TaskFills(b: Space, target: nat, lane: Lane, mints: nat)
    requires TaskRun(ForkSpace(b), target, lane, mints).Some? && mints > 0
    ensures var r := TaskRun(ForkSpace(b), target, lane, mints).value;
            && target in r.open && r.open[target] in r.chunks
            && OpenChunk(r, target, Some(lane)) == if r.chunks[r.open[target]].len == CHUNK_ROWS then None else Some(r.open[target])
  {
    MintOpens(TaskRun(ForkSpace(b), target, lane, mints - 1).value, target, lane);
  }

  /** Its first row goes on filling the base's open chunk exactly when it has the partition to itself and the chunk was to be filled on. */
  lemma {:induction false} FirstFills(b: Space, target: nat, lane: Lane)
    requires Committed(b)
    ensures OpenChunk(ForkSpace(b), target, Some(lane)) == if lane.exclusive && target != 0 then OpenChunk(b, target, None) else None
  {
  }
}
