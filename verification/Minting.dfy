/**
  Minting ids. An id names a chunk and a row in it; every chunk has one owner.
  A mint extends its target's open chunk while that is usable and otherwise
  opens another, whose index depends on whether the minting database is a lane
  of an epoch. Two results: ids from different lanes are disjoint, and without
  lanes ids grow with time wherever order is promised.
 */
module Minting {
  import opened Options
  import opened Arithmetic

  const CHUNK_ROWS: nat := 4096
  const MAX_CHUNKS: nat := 0x8_0000
  const U32: nat := 0x1_0000_0000

  datatype Chunk = Chunk(owner: nat, len: nat)

  /** Where a task takes chunks: every `count`th index from the space's `base` on. */
  datatype Lane = Lane(index: nat, count: nat, exclusive: bool)

  /**
    One id space. `used` bounds the chunk indices from above; `open` and `seen`
    give each partition's newest chunk and the mint count when it last minted;
    `base` and `taken` are the lane's.
   */
  datatype Space = Space(used: nat, chunks: map<nat, Chunk>, open: map<nat, nat>, seen: map<nat, nat>,
                         minted: nat, moduleMinted: nat, base: nat, taken: nat)

  function IdAt(chunk: nat, row: nat): nat { chunk * CHUNK_ROWS + row }

  function Current(s: Space, target: nat): nat { if target == 0 then s.minted else s.moduleMinted }

  /** The chunk the next row may go on filling. */
  function OpenChunk(s: Space, target: nat, lane: Option<Lane>): (r: Option<nat>)
    ensures r.Some? ==> target in s.open && r.value == s.open[target] && r.value in s.chunks && s.chunks[r.value].len != CHUNK_ROWS
  {
    if target !in s.open || target !in s.seen || s.open[target] !in s.chunks then None
    else
      var index := s.open[target];
      var own := lane.None? || index >= s.base || (lane.value.exclusive && target != 0);
      if s.chunks[index].len != CHUNK_ROWS && s.seen[target] == Current(s, target) && own then Some(index) else None
  }

  function FreshIndex(s: Space, lane: Option<Lane>): nat
  {
    if lane.None? then s.used else s.base + s.taken * lane.value.count + lane.value.index
  }

  function Max(a: nat, b: nat): nat { if a < b then b else a }

  function TakeFresh(s: Space, target: nat, lane: Option<Lane>): Space
  {
    var index := FreshIndex(s, lane);
    s.(used := Max(s.used, index + 1), chunks := s.chunks[index := Chunk(target, 0)],
       taken := if lane.None? then s.taken else s.taken + 1)
  }

  function PushRow(s: Space, target: nat, index: nat): Space
    requires index in s.chunks
  {
    var minted := (s.minted + 1) % U32;
    var moduleMinted := if target == 0 then (s.moduleMinted + 1) % U32 else s.moduleMinted;
    s.(chunks := s.chunks[index := s.chunks[index].(len := s.chunks[index].len + 1)],
       minted := minted, moduleMinted := moduleMinted,
       open := s.open[target := index], seen := s.seen[target := if target == 0 then minted else moduleMinted])
  }

  /** Mint a row for `target`: the space after it and the id; `None` when the id space is exhausted. */
  function Mint(s: Space, target: nat, lane: Option<Lane>): Option<(Space, nat)>
  {
    match OpenChunk(s, target, lane)
    case Some(index) => Some((PushRow(s, target, index), IdAt(index, s.chunks[index].len)))
    case None =>
      var index := FreshIndex(s, lane);
      if index >= MAX_CHUNKS then None else Some((PushRow(TakeFresh(s, target, lane), target, index), IdAt(index, 0)))
  }

  // ----- The store's minting state, updated in place.

  class Db {
    var spaces: seq<Space>
    var target: nat
    var lane: Option<Lane>
    var parts: nat

    ghost predicate Valid() reads this { |spaces| == 4 }

    constructor ()
      ensures Valid() && target == 0 && lane.None? && parts == 1
      ensures forall k | 0 <= k < 4 :: spaces[k] == EmptySpace()
    {
      spaces := seq(4, _ => EmptySpace());
      target, lane, parts := 0, None, 1;
    }

    /** A task's store: a copy of `base`, minting into `target` from its lane. */
    constructor Fork(base: Db, index: nat, count: nat, target: nat, exclusive: bool)
      requires base.Valid()
      ensures Valid() && this.target == target && lane == Some(Lane(index, count, exclusive)) && parts == base.parts
      ensures forall k | 0 <= k < 4 :: spaces[k] == ForkSpace(base.spaces[k])
    {
      this.spaces := seq(4, k requires 0 <= k < 4 && base.Valid() reads base => ForkSpace(base.spaces[k]));
      this.target, this.lane, this.parts := target, Some(Lane(index, count, exclusive)), base.parts;
    }

    method TakeFreshChunk(space: nat) returns (index: Option<nat>)
      requires Valid() && space < 4
      modifies this`spaces
      ensures Valid()
      ensures FreshIndex(old(spaces)[space], lane) >= MAX_CHUNKS ==> index.None? && spaces == old(spaces)
      ensures FreshIndex(old(spaces)[space], lane) < MAX_CHUNKS ==>
                && index == Some(FreshIndex(old(spaces)[space], lane))
                && spaces == old(spaces)[space := TakeFresh(old(spaces)[space], target, lane)]
    {
      var s := spaces[space];
      var at := if lane.None? then s.used else s.base + s.taken * lane.value.count + lane.value.index;
      if at >= MAX_CHUNKS {
        return None;
      }
      if lane.Some? {
        s := s.(taken := s.taken + 1);
      }
      s := s.(used := Max(s.used, at + 1), chunks := s.chunks[at := Chunk(target, 0)]);
      spaces := spaces[space := s];
      return Some(at);
    }

    method MintRow(space: nat) returns (id: Option<nat>)
      requires Valid() && space < 4
      modifies this`spaces
      ensures Valid()
      ensures match Mint(old(spaces)[space], target, lane)
              case None => id.None? && spaces == old(spaces)
              case Some((s, minted)) => id == Some(minted) && spaces == old(spaces)[space := s]
    {
      var index := OpenChunk(spaces[space], target, lane);
      if index.None? {
        index := TakeFreshChunk(space);
        if index.None? {
          return None;
        }
      }
      var s := spaces[space];
      var row := s.chunks[index.value].len;
      spaces := spaces[space := PushRow(s, target, index.value)];
      return Some(IdAt(index.value, row));
    }

    /** A partition of its own for what is minted next, unless a task is running. */
    method EnterPartition() returns (previous: nat)
      modifies this`target, this`parts
      ensures previous == old(target)
      ensures lane.Some? ==> target == old(target) && parts == old(parts)
      ensures lane.None? ==> target == old(parts) && parts == old(parts) + 1
    {
      previous := target;
      if lane.None? {
        target, parts := parts, parts + 1;
      }
    }

    method MintInto(part: nat)
      modifies this`target
      ensures target == part
    {
      target := part;
    }

    method MintUnder(part: nat) returns (previous: Option<nat>)
      modifies this`target
      ensures if part != 0 && part != old(target) && lane.None? then previous == Some(old(target)) && target == part
              else previous.None? && target == old(target)
    {
      if part != 0 && part != target && lane.None? {
        previous := Some(target);
        target := part;
      } else {
        previous := None;
      }
    }
  }

  function EmptySpace(): Space { Space(0, map[], map[], map[], 0, 0, 0, 0) }

  function ForkSpace(s: Space): Space { s.(base := s.used, taken := 0) }

  // ----- Lanes never collide.

  /** A row of `s` that `b` does not have. */
  ghost predicate NewRow(b: Space, s: Space, chunk: nat, row: nat)
  {
    && chunk in s.chunks && row < s.chunks[chunk].len
    && !(chunk in b.chunks && row < b.chunks[chunk].len)
  }

  /** A committed space: chunk indices below `used`, and a partition's open chunk is its own. */
  ghost predicate Committed(b: Space)
  {
    && (forall c | c in b.chunks :: c < b.used)
    && (forall p | p in b.open :: b.open[p] in b.chunks && b.chunks[b.open[p]].owner == p)
  }

  ghost predicate InLane(c: nat, base: nat, lane: Lane, taken: nat)
  {
    exists t: nat :: t < taken && c == base + t * lane.count + lane.index
  }

  /** `s` is what a task of lane `lane` minting into `target` has made of `b`. */
  ghost predicate Forked(b: Space, s: Space, target: nat, lane: Lane)
  {
    && s.base == b.used
    && (forall c | c in b.chunks :: c in s.chunks && s.chunks[c].owner == b.chunks[c].owner && s.chunks[c].len >= b.chunks[c].len)
    && (forall c | c in b.chunks && s.chunks[c].len > b.chunks[c].len ::
          lane.exclusive && target != 0 && target in b.open && c == b.open[target])
    && (forall c | c in s.chunks && c !in b.chunks :: InLane(c, b.used, lane, s.taken) && s.chunks[c].owner == target)
    && (target in s.open ==> s.open[target] in s.chunks)
    && (target in s.open ==> s.open[target] !in b.chunks || (target in b.open && s.open[target] == b.open[target]))
  }

  lemma {:induction false} LaneGrows(c: nat, base: nat, lane: Lane, taken: nat)
    requires InLane(c, base, lane, taken)
    ensures InLane(c, base, lane, taken + 1)
  {
    var t: nat :| t < taken && c == base + t * lane.count + lane.index;
    assert t < taken + 1;
  }

  lemma {:induction false} LaneFresh(s: Space, lane: Lane)
    requires lane.index < lane.count
    ensures InLane(FreshIndex(s, Some(lane)), s.base, lane, s.taken + 1)
    ensures forall c: nat | InLane(c, s.base, lane, s.taken) :: c < FreshIndex(s, Some(lane))
  {
    var index := FreshIndex(s, Some(lane));
    assert s.taken < s.taken + 1 && index == s.base + s.taken * lane.count + lane.index;
    forall c: nat | InLane(c, s.base, lane, s.taken)
      ensures c < index
    {
      var t: nat :| t < s.taken && c == s.base + t * lane.count + lane.index;
      MulStep(t, s.taken, lane.count);
    }
  }

  lemma {:induction false} ForkStarts(b: Space, target: nat, lane: Lane)
    requires Committed(b)
    ensures Forked(b, ForkSpace(b), target, lane)
  {
  }

  /** A mint adds exactly one row, the one its id names, and that row was not there. */
  lemma {:induction false} MintAddsItsRow(s: Space, target: nat, lane: Option<Lane>)
    requires Mint(s, target, lane).Some? && FreshIndex(s, lane) !in s.chunks
    ensures var (after, id) := Mint(s, target, lane).value;
            exists chunk, row: nat :: id == IdAt(chunk, row) && NewRow(s, after, chunk, row)
              && forall c, r: nat | NewRow(s, after, c, r) :: c == chunk && r == row
  {
    var (after, id) := Mint(s, target, lane).value;
    var index := if OpenChunk(s, target, lane).Some? then OpenChunk(s, target, lane).value else FreshIndex(s, lane);
    var row := after.chunks[index].len - 1;
    assert id == IdAt(index, row) && NewRow(s, after, index, row);
  }

  lemma {:induction false} LaneIndexIsFree(b: Space, s: Space, target: nat, lane: Lane)
    requires Committed(b) && Forked(b, s, target, lane) && lane.index < lane.count
    ensures FreshIndex(s, Some(lane)) !in s.chunks
  {
    LaneFresh(s, lane);
  }

  lemma {:induction false} FreshKeepsLane(b: Space, s: Space, target: nat, lane: Lane)
    requires Committed(b) && Forked(b, s, target, lane) && lane.index < lane.count
    ensures Forked(b, TakeFresh(s, target, Some(lane)), target, lane)
  {
    LaneFresh(s, lane);
    LaneIndexIsFree(b, s, target, lane);
    forall c | c in s.chunks && c !in b.chunks
      ensures InLane(c, b.used, lane, s.taken + 1)
    {
      LaneGrows(c, b.used, lane, s.taken);
    }
  }

  lemma {:induction false} PushKeepsLane(b: Space, s: Space, target: nat, lane: Lane, index: nat)
    requires Forked(b, s, target, lane) && index in s.chunks
    requires index in b.chunks ==> lane.exclusive && target != 0 && target in b.open && index == b.open[target]
    ensures Forked(b, PushRow(s, target, index), target, lane)
  {
  }

  /** Every mint of a task keeps it in its lane. */
  lemma {:induction false} MintKeepsLane(b: Space, s: Space, target: nat, lane: Lane)
    requires Committed(b) && Forked(b, s, target, lane) && lane.index < lane.count && Mint(s, target, Some(lane)).Some?
    ensures var (after, id) := Mint(s, target, Some(lane)).value;
            Forked(b, after, target, lane)
  {
    var open := OpenChunk(s, target, Some(lane));
    if open.None? {
      FreshKeepsLane(b, s, target, lane);
      LaneIndexIsFree(b, s, target, lane);
      PushKeepsLane(b, TakeFresh(s, target, Some(lane)), target, lane, FreshIndex(s, Some(lane)));
    } else {
      PushKeepsLane(b, s, target, lane, open.value);
    }
  }

  /** A run of mints by one task. */
  ghost function TaskRun(s: Space, target: nat, lane: Lane, mints: nat): Option<Space>
  {
    if mints == 0 then Some(s)
    else
      match TaskRun(s, target, lane, mints - 1)
      case None => None
      case Some(before) =>
        match Mint(before, target, Some(lane))
        case None => None
        case Some((after, _)) => Some(after)
  }

  lemma {:induction false} TaskRunStaysInLane(b: Space, target: nat, lane: Lane, mints: nat)
    requires Committed(b) && lane.index < lane.count && TaskRun(ForkSpace(b), target, lane, mints).Some?
    ensures Forked(b, TaskRun(ForkSpace(b), target, lane, mints).value, target, lane)
  {
    if mints == 0 {
      ForkStarts(b, target, lane);
    } else {
      TaskRunStaysInLane(b, target, lane, mints - 1);
      MintKeepsLane(b, TaskRun(ForkSpace(b), target, lane, mints - 1).value, target, lane);
    }
  }

  /** An index lies in one lane only. */
  lemma {:induction false} OneLane(c: nat, base: nat, a: Lane, b: Lane, ta: nat, tb: nat)
    requires a.count == b.count && a.index < a.count && b.index < b.count
    requires InLane(c, base, a, ta) && InLane(c, base, b, tb)
    ensures a.index == b.index
  {
    var t: nat :| t < ta && c == base + t * a.count + a.index;
    var u: nat :| u < tb && c == base + u * b.count + b.index;
    if t < u {
      MulStep(t, u, a.count);
    } else if u < t {
      MulStep(u, t, a.count);
    }
  }

  /**
    Two tasks of an epoch mint disjoint rows and no row of the base, and a
    chunk both have written is one the base committed: an exclusive task is the
    only one minting into its partition.
   */
  lemma {:induction false} LanesNeverCollide(b: Space, count: nat, i: nat, j: nat, targetI: nat, targetJ: nat,
                                             exclusiveI: bool, exclusiveJ: bool, mintsI: nat, mintsJ: nat)
    requires Committed(b) && i < count && j < count && i != j
    requires exclusiveI || exclusiveJ ==> targetI != targetJ
    requires TaskRun(ForkSpace(b), targetI, Lane(i, count, exclusiveI), mintsI).Some?
    requires TaskRun(ForkSpace(b), targetJ, Lane(j, count, exclusiveJ), mintsJ).Some?
    ensures var si := TaskRun(ForkSpace(b), targetI, Lane(i, count, exclusiveI), mintsI).value;
            var sj := TaskRun(ForkSpace(b), targetJ, Lane(j, count, exclusiveJ), mintsJ).value;
            && (forall chunk, row: nat | NewRow(b, si, chunk, row) :: !NewRow(b, sj, chunk, row))
            && (forall chunk | chunk in si.chunks && chunk in sj.chunks :: chunk in b.chunks)
  {
    var li, lj := Lane(i, count, exclusiveI), Lane(j, count, exclusiveJ);
    TaskRunStaysInLane(b, targetI, li, mintsI);
    TaskRunStaysInLane(b, targetJ, lj, mintsJ);
    var si := TaskRun(ForkSpace(b), targetI, li, mintsI).value;
    var sj := TaskRun(ForkSpace(b), targetJ, lj, mintsJ).value;
    forall chunk | chunk in si.chunks && chunk in sj.chunks
      ensures chunk in b.chunks
    {
      if chunk !in b.chunks {
        OneLane(chunk, b.used, li, lj, si.taken, sj.taken);
      }
    }
  }

  // ----- Ids ascend with creation.

  datatype Event = Event(part: nat, chunk: nat, row: nat)

  function Id(e: Event): nat { IdAt(e.chunk, e.row) }

  ghost predicate Comparable(a: Event, b: Event) { a.part == b.part || a.part == 0 || b.part == 0 }

  /** Mints of one space in order, each into the partition given; `None` when the ids run out. */
  ghost function History(targets: seq<nat>): Option<(Space, seq<Event>)>
  {
    if targets == [] then Some((EmptySpace(), []))
    else
      match History(targets[..|targets| - 1])
      case None => None
      case Some((s, events)) =>
        var target := targets[|targets| - 1];
        match Mint(s, target, None)
        case None => None
        case Some((after, id)) => Some((after, events + [Event(target, id / CHUNK_ROWS, id % CHUNK_ROWS)]))
  }

  ghost function ModuleEvents(events: seq<Event>): nat
  {
    if events == [] then 0
    else ModuleEvents(events[..|events| - 1]) + if events[|events| - 1].part == 0 then 1 else 0
  }

  lemma {:induction false} ModuleEventsBounded(events: seq<Event>)
    ensures ModuleEvents(events) <= |events|
  {
    if events != [] {
      ModuleEventsBounded(events[..|events| - 1]);
    }
  }

  ghost predicate Distinct(events: seq<Event>) { forall i, j | 0 <= i < j < |events| :: Id(events[i]) != Id(events[j]) }

  ghost predicate Rows(s: Space, events: seq<Event>)
  {
    && s.used <= MAX_CHUNKS && (forall c | c in s.chunks :: c < s.used && s.chunks[c].len <= CHUNK_ROWS)
    && (forall e | e in events :: e.chunk in s.chunks && e.row < s.chunks[e.chunk].len && s.chunks[e.chunk].owner == e.part)
  }

  ghost predicate Counters(s: Space, events: seq<Event>)
  {
    && s.minted == |events| && s.moduleMinted == ModuleEvents(events)
    && s.open.Keys == s.seen.Keys
    && (forall p | p in s.open :: s.open[p] in s.chunks && s.chunks[s.open[p]].owner == p && s.seen[p] <= Current(s, p))
  }

  /** The events are rows of the space, none twice, and the counts are theirs. */
  ghost predicate Recorded(s: Space, events: seq<Event>) { Rows(s, events) && Counters(s, events) && Distinct(events) }

  /** Newest chunks are the highest there are for what they must stay above. */
  ghost predicate Newest(s: Space, events: seq<Event>) { forall e | e in events :: NewestFor(s, e) }

  ghost predicate NewestFor(s: Space, e: Event)
  {
    && (e.part in s.open ==> e.chunk <= s.open[e.part])
    && (forall p | p in s.open && p in s.seen && p != 0 && e.part == 0 && s.seen[p] == s.moduleMinted :: e.chunk <= s.open[p])
    && (0 in s.open && 0 in s.seen && s.seen[0] == s.minted ==> e.chunk <= s.open[0])
  }

  /** The invariant of a run: rows are recorded, newest chunks are highest, comparable ids ascend. */
  ghost predicate Ascends(s: Space, events: seq<Event>)
  {
    && Recorded(s, events) && Newest(s, events)
    && (forall e | e in events :: e.part in s.open)
    && forall i, j | 0 <= i < j < |events| && Comparable(events[i], events[j]) :: Id(events[i]) < Id(events[j])
  }

  lemma IdSplit(chunk: nat, row: nat)
    requires row < CHUNK_ROWS
    ensures IdAt(chunk, row) / CHUNK_ROWS == chunk && IdAt(chunk, row) % CHUNK_ROWS == row
  {
  }

  /** The space a mint pushes its row on, and where: into the open chunk, or a fresh one. */
  ghost predicate Opens(s: Space, target: nat, lane: Option<Lane>, t: Space, index: nat, row: nat)
  {
    && (if OpenChunk(s, target, lane).Some? then t == s && OpenChunk(s, target, lane) == Some(index)
        else t == TakeFresh(s, target, lane) && index == FreshIndex(s, lane) < MAX_CHUNKS && index !in s.chunks)
    && index in t.chunks && row == t.chunks[index].len < CHUNK_ROWS
  }

  lemma {:induction false} MintShape(s: Space, target: nat, lane: Option<Lane>) returns (t: Space, index: nat, row: nat)
    requires Mint(s, target, lane).Some? && (forall c | c in s.chunks :: c < s.used && s.chunks[c].len <= CHUNK_ROWS)
    requires lane.Some? ==> FreshIndex(s, lane) !in s.chunks
    ensures Opens(s, target, lane, t, index, row)
    ensures Mint(s, target, lane) == Some((PushRow(t, target, index), IdAt(index, row)))
  {
    var open := OpenChunk(s, target, lane);
    if open.Some? {
      t, index := s, open.value;
    } else {
      t, index := TakeFresh(s, target, lane), FreshIndex(s, lane);
    }
    row := t.chunks[index].len;
  }

  /** The row a lane-free mint makes lies above every row it must lie above. */
  lemma {:induction false} MintsAbove(s: Space, events: seq<Event>, target: nat, e: Event, t: Space, index: nat, row: nat)
    requires Ascends(s, events) && e in events && Opens(s, target, None, t, index, row)
    ensures IdAt(index, row) != Id(e)
    ensures e.part == target || e.part == 0 || target == 0 ==> Id(e) < IdAt(index, row) && e.chunk <= index
  {
    assert e.chunk in s.chunks && e.part in s.open;
    if t == s {
      assert e.chunk == index ==> e.part == target && e.row < row;
    }
  }

  lemma {:induction false} PigeonHole(ids: seq<nat>, bound: nat)
    requires forall i, j | 0 <= i < j < |ids| :: ids[i] != ids[j]
    requires forall i | 0 <= i < |ids| :: ids[i] < bound
    ensures |ids| <= bound
    decreases bound
  {
    assert ids == [] || ids[0] < bound;
    if bound > 0 {
      if k :| 0 <= k < |ids| && ids[k] == bound - 1 {
        var rest := ids[..k] + ids[k + 1..];
        PigeonHole(rest, bound - 1);
      } else {
        PigeonHole(ids, bound - 1);
      }
    }
  }

  /** Ids fit in 31 bits, so the 32-bit mint counters never wrap. */
  lemma {:induction false} CountersFit(s: Space, events: seq<Event>)
    requires Rows(s, events) && Distinct(events)
    ensures |events| <= MAX_CHUNKS * CHUNK_ROWS && ModuleEvents(events) <= |events|
  {
    var ids := seq(|events|, i requires 0 <= i < |events| => Id(events[i]));
    forall i | 0 <= i < |ids|
      ensures ids[i] < MAX_CHUNKS * CHUNK_ROWS
    {
      assert events[i] in events;
    }
    PigeonHole(ids, MAX_CHUNKS * CHUNK_ROWS);
    ModuleEventsBounded(events);
  }

  lemma {:induction false} PushRows(s: Space, events: seq<Event>, target: nat, lane: Option<Lane>, t: Space, index: nat, row: nat)
    requires Recorded(s, events) && Opens(s, target, lane, t, index, row)
    ensures Rows(PushRow(t, target, index), events + [Event(target, index, row)])
  {
    assert t.chunks[index].owner == target;
    forall e | e in events
      ensures e.chunk in t.chunks && t.chunks[e.chunk] == s.chunks[e.chunk]
    {
    }
  }

  lemma {:induction false} PushCounters(s: Space, events: seq<Event>, target: nat, lane: Option<Lane>, t: Space, index: nat, row: nat)
    requires Recorded(s, events) && Opens(s, target, lane, t, index, row)
    ensures Counters(PushRow(t, target, index), events + [Event(target, index, row)])
  {
    PushCounts(s, events, target, lane, t, index, row);
    PushOpens(s, events, target, lane, t, index, row);
  }

  /** Every partition's open chunk is still its own. */
  lemma {:induction false} PushOpens(s: Space, events: seq<Event>, target: nat, lane: Option<Lane>, t: Space, index: nat, row: nat)
    requires Recorded(s, events) && Opens(s, target, lane, t, index, row)
    ensures var after := PushRow(t, target, index);
            && after.open.Keys == s.open.Keys + {target} == after.seen.Keys
            && forall p | p in after.open :: after.open[p] in after.chunks && after.chunks[after.open[p]].owner == p
  {
    assert t.chunks[index].owner == target;
    forall p | p in s.open
      ensures s.open[p] in t.chunks && t.chunks[s.open[p]] == s.chunks[s.open[p]]
    {
    }
  }

  lemma {:induction false} PushCounts(s: Space, events: seq<Event>, target: nat, lane: Option<Lane>, t: Space, index: nat, row: nat)
    requires Recorded(s, events) && Opens(s, target, lane, t, index, row)
    ensures var after := PushRow(t, target, index);
            var all := events + [Event(target, index, row)];
            && after.minted == |all| == s.minted + 1
            && after.moduleMinted == ModuleEvents(all) == s.moduleMinted + if target == 0 then 1 else 0
  {
    CountersFit(s, events);
    ModuleEventsPush(events, Event(target, index, row));
  }

  lemma {:induction false} ModuleEventsPush(events: seq<Event>, event: Event)
    ensures ModuleEvents(events + [event]) == ModuleEvents(events) + if event.part == 0 then 1 else 0
  {
    assert (events + [event])[..|events|] == events;
  }

  lemma {:induction false} PushNewest(s: Space, events: seq<Event>, target: nat, t: Space, index: nat, row: nat)
    requires Ascends(s, events) && Opens(s, target, None, t, index, row)
    ensures Newest(PushRow(t, target, index), events + [Event(target, index, row)])
  {
    CountersFit(s, events);
    var after, event := PushRow(t, target, index), Event(target, index, row);
    forall e | e in events + [event]
      ensures NewestFor(after, e)
    {
      if e in events {
        MintsAbove(s, events, target, e, t, index, row);
        assert NewestFor(s, e);
      }
    }
  }

  /** A row that is minted was not there. */
  lemma {:induction false} PushDistinct(s: Space, events: seq<Event>, target: nat, lane: Option<Lane>, t: Space, index: nat, row: nat)
    requires Recorded(s, events) && Opens(s, target, lane, t, index, row)
    ensures Distinct(events + [Event(target, index, row)])
  {
    var all := events + [Event(target, index, row)];
    forall i, j | 0 <= i < j < |all|
      ensures Id(all[i]) != Id(all[j])
    {
      if j == |events| {
        assert events[i] in events;
      }
    }
  }

  /** A mint of any kind adds its row to what is recorded. */
  lemma {:induction false} MintRecords(s: Space, events: seq<Event>, target: nat, lane: Option<Lane>)
    requires Recorded(s, events) && Mint(s, target, lane).Some? && (lane.Some? ==> FreshIndex(s, lane) !in s.chunks)
    ensures var (after, id) := Mint(s, target, lane).value;
            Recorded(after, events + [Event(target, id / CHUNK_ROWS, id % CHUNK_ROWS)])
  {
    var t, index, row := MintShape(s, target, lane);
    IdSplit(index, row);
    PushRows(s, events, target, lane, t, index, row);
    PushCounters(s, events, target, lane, t, index, row);
    PushDistinct(s, events, target, lane, t, index, row);
  }

  lemma {:induction false} OrderedPush(events: seq<Event>, event: Event)
    requires Distinct(events)
    requires forall i, j | 0 <= i < j < |events| && Comparable(events[i], events[j]) :: Id(events[i]) < Id(events[j])
    requires forall e | e in events :: Id(event) != Id(e) && (Comparable(e, event) ==> Id(e) < Id(event))
    ensures var all := events + [event];
            && Distinct(all)
            && forall i, j | 0 <= i < j < |all| && Comparable(all[i], all[j]) :: Id(all[i]) < Id(all[j])
  {
    var all := events + [event];
    forall i, j | 0 <= i < j < |all|
      ensures Id(all[i]) != Id(all[j]) && (Comparable(all[i], all[j]) ==> Id(all[i]) < Id(all[j]))
    {
      assert all[i] == events[i];
      if j == |events| {
        assert all[i] in events && all[j] == event;
      } else {
        assert all[j] == events[j];
      }
    }
  }

  lemma {:induction false} MintAscends(s: Space, events: seq<Event>, target: nat)
    requires Ascends(s, events) && Mint(s, target, None).Some?
    ensures var (after, id) := Mint(s, target, None).value;
            Ascends(after, events + [Event(target, id / CHUNK_ROWS, id % CHUNK_ROWS)])
  {
    var t, index, row := MintShape(s, target, None);
    IdSplit(index, row);
    var event := Event(target, index, row);
    forall e | e in events
      ensures Id(event) != Id(e) && (Comparable(e, event) ==> Id(e) < Id(event))
    {
      MintsAbove(s, events, target, e, t, index, row);
    }
    OrderedPush(events, event);
    MintRecords(s, events, target, None);
    PushNewest(s, events, target, t, index, row);
  }

  /**
    In every run without lanes, a later row has the larger id whenever both
    share a partition or either is the module's.
   */
  lemma {:induction false} IdsAscend(targets: seq<nat>)
    requires History(targets).Some?
    ensures Ascends(History(targets).value.0, History(targets).value.1)
    decreases |targets|
  {
    if targets != [] {
      var before := targets[..|targets| - 1];
      IdsAscend(before);
      var (s, events) := History(before).value;
      MintAscends(s, events, targets[|targets| - 1]);
    }
  }
}
