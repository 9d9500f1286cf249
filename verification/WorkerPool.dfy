/**
  One epoch's worker pool: workers take target indices from a shared counter,
  run the task of each, and store the outcome in its slot. Any interleaving of
  the workers' atomic actions gives what the sequential loop gives.
 */
module WorkerPool {
  import opened Options

  /** Where a worker stands: about to take an index, running it, about to store its outcome, or gone. */
  datatype Place<R> = Fetching | Running(index: nat) | Storing(index: nat, outcome: R) | Gone

  datatype Pool<R> = Pool(next: nat, slots: seq<Option<R>>, places: seq<Place<R>>, started: seq<nat>)

  /** `task(i)` is the outcome of target `i`: a function of the snapshot, its place, its target and its exclusivity. */
  function Start<R>(targets: nat, workers: nat): Pool<R>
  {
    Pool(0, seq(targets, _ => None), seq(workers, _ => Fetching), [])
  }

  /** One atomic action of worker `w`. */
  function Step<R>(task: nat -> R, p: Pool<R>, w: nat): Pool<R>
    requires w < |p.places|
  {
    match p.places[w]
    case Fetching =>
      if p.next < |p.slots| then
        p.(next := p.next + 1, places := p.places[w := Running(p.next)], started := p.started + [p.next])
      else p.(next := p.next + 1, places := p.places[w := Gone])
    case Running(index) => p.(places := p.places[w := Storing(index, task(index))])
    case Storing(index, outcome) =>
      p.(places := p.places[w := Fetching], slots := if index < |p.slots| then p.slots[index := Some(outcome)] else p.slots)
    case Gone => p
  }

  /** The workers act in the order of `schedule`, one action at a time. */
  function Run<R>(task: nat -> R, p: Pool<R>, schedule: seq<nat>): (r: Pool<R>)
    requires forall i | 0 <= i < |schedule| :: schedule[i] < |p.places|
    ensures |r.places| == |p.places| && |r.slots| == |p.slots|
    decreases |schedule|
  {
    if schedule == [] then p else Run(task, Step(task, p, schedule[0]), schedule[1..])
  }

  // ----- The invariant.

  predicate Holds<R>(place: Place<R>, i: nat) { (place.Running? || place.Storing?) && place.index == i }

  ghost predicate Held<R>(p: Pool<R>, i: nat) { exists w: nat :: w < |p.places| && Holds(p.places[w], i) }

  /** Indices are started in order, each once, as many as the counter handed out. */
  ghost predicate Started<R>(p: Pool<R>)
  {
    |p.started| == (if p.next < |p.slots| then p.next else |p.slots|) && forall k | 0 <= k < |p.started| :: p.started[k] == k
  }

  /** A worker holds an index the counter handed out, whose slot is empty and that no other worker holds. */
  ghost predicate Exclusive<R>(p: Pool<R>)
  {
    && (forall w: nat, i: nat {:trigger Holds(p.places[w], i)} | w < |p.places| && Holds(p.places[w], i) :: i < |p.slots| && i < p.next && p.slots[i].None?)
    && (forall v: nat, w: nat, i: nat {:trigger Holds(p.places[v], i), Holds(p.places[w], i)} |
          v < w < |p.places| && Holds(p.places[v], i) :: !Holds(p.places[w], i))
  }

  /** An index handed out is held or stored, one not handed out has an empty slot, and what is stored is its outcome. */
  ghost predicate Accounted<R(!new)>(task: nat -> R, p: Pool<R>)
  {
    && (forall i: nat | i < |p.slots| && i < p.next :: p.slots[i].Some? || Held(p, i))
    && (forall i: nat | p.next <= i < |p.slots| :: p.slots[i].None?)
    && (forall i: nat | i < |p.slots| && p.slots[i].Some? :: p.slots[i].value == task(i))
    && (forall w: nat | w < |p.places| && p.places[w].Storing? :: p.places[w].outcome == task(p.places[w].index))
  }

  /** A worker leaves only after the counter passed the last target. */
  ghost predicate LeftLate<R>(p: Pool<R>)
  {
    forall w: nat | w < |p.places| && p.places[w].Gone? :: |p.slots| < p.next
  }

  ghost predicate Inv<R(!new)>(task: nat -> R, p: Pool<R>)
  {
    Started(p) && Exclusive(p) && Accounted(task, p) && LeftLate(p)
  }

  lemma {:induction false} StartInv<R(!new)>(task: nat -> R, targets: nat, workers: nat)
    ensures Inv(task, Start(targets, workers))
  {
    var p := Start<R>(targets, workers);
    assert forall i | 0 <= i < targets :: p.slots[i] == None;
    assert forall w | 0 <= w < workers :: p.places[w] == Fetching;
  }

  lemma {:induction false} StepHeld<R(!new)>(task: nat -> R, p: Pool<R>, w: nat, i: nat)
    requires w < |p.places| && Exclusive(p) && i < |p.slots| && Held(p, i) && Step(task, p, w).slots[i].None?
    ensures Held(Step(task, p, w), i)
  {
    var q := Step(task, p, w);
    var v: nat :| v < |p.places| && Holds(p.places[v], i);
    assert Holds(q.places[v], i);
  }

  lemma {:induction false} StepAccounted<R(!new)>(task: nat -> R, p: Pool<R>, w: nat)
    requires w < |p.places| && Inv(task, p)
    ensures Accounted(task, Step(task, p, w))
  {
    var q := Step(task, p, w);
    assert p.places[w].Storing? ==> Holds(p.places[w], p.places[w].index);
    forall i: nat | i < |q.slots| && i < q.next
      ensures q.slots[i].Some? || Held(q, i)
    {
      if q.slots[i].None? {
        if i < p.next {
          StepHeld(task, p, w, i);
        } else {
          assert Holds(q.places[w], i);
        }
      }
    }
  }

  lemma {:induction false} StepExclusive<R(!new)>(task: nat -> R, p: Pool<R>, w: nat)
    requires w < |p.places| && Inv(task, p)
    ensures Exclusive(Step(task, p, w))
  {
    var q := Step(task, p, w);
    forall v: nat, i: nat | v < |q.places| && Holds(q.places[v], i)
      ensures i < |q.slots| && i < q.next && q.slots[i].None?
    {
      if v != w {
        assert Holds(p.places[v], i);
        if p.places[w].Storing? {
          assert Holds(p.places[w], p.places[w].index);
        }
      } else if p.places[w].Running? {
        assert Holds(p.places[w], i);
      }
    }
    forall u: nat, v: nat, i: nat | u < v < |q.places| && Holds(q.places[u], i)
      ensures !Holds(q.places[v], i)
    {
      if u != w {
        assert Holds(p.places[u], i);
      }
      if v != w && Holds(q.places[v], i) {
        assert Holds(p.places[v], i);
      }
      if p.places[w].Running? {
        assert Holds(p.places[w], p.places[w].index);
      }
    }
  }

  lemma {:induction false} StepInv<R(!new)>(task: nat -> R, p: Pool<R>, w: nat)
    requires w < |p.places| && Inv(task, p)
    ensures Inv(task, Step(task, p, w))
  {
    StepAccounted(task, p, w);
    StepExclusive(task, p, w);
  }

  lemma {:induction false} RunInv<R(!new)>(task: nat -> R, p: Pool<R>, schedule: seq<nat>)
    requires Inv(task, p) && forall i | 0 <= i < |schedule| :: schedule[i] < |p.places|
    ensures Inv(task, Run(task, p, schedule))
    decreases |schedule|
  {
    if schedule != [] {
      StepInv(task, p, schedule[0]);
      RunInv(task, Step(task, p, schedule[0]), schedule[1..]);
    }
  }

  // ----- What the epoch promises.

  ghost predicate Finished<R>(p: Pool<R>) { forall w: nat | w < |p.places| :: p.places[w].Gone? }

  /** The sequential loop's results. */
  function Sequential<R>(task: nat -> R, targets: nat): seq<Option<R>> { seq(targets, i requires 0 <= i => Some(task(i))) }

  /**
    Whatever the interleaving, once every worker has left each target was
    started exactly once, in order, and the slots are what the sequential loop
    fills.
   */
  lemma {:induction false} AnyInterleavingIsSequential<R(!new)>(task: nat -> R, targets: nat, workers: nat, schedule: seq<nat>)
    requires workers >= 1 && forall i | 0 <= i < |schedule| :: schedule[i] < workers
    requires Finished(Run(task, Start(targets, workers), schedule))
    ensures var p := Run(task, Start(targets, workers), schedule);
            && p.slots == Sequential(task, targets)
            && |p.started| == targets && forall k | 0 <= k < targets :: p.started[k] == k
  {
    StartInv(task, targets, workers);
    RunInv(task, Start(targets, workers), schedule);
    FinishedSlots(task, Run(task, Start(targets, workers), schedule));
  }

  /** Work left: three actions an index and one to leave. */
  ghost function Left<R>(p: Pool<R>): nat
  {
    (if p.next < |p.slots| then 3 * (|p.slots| - p.next) else 0) + PlacesLeft(p.places)
  }

  ghost function PlacesLeft<R>(places: seq<Place<R>>): nat
  {
    if places == [] then 0
    else
      PlacesLeft(places[1..]) + match places[0]
      case Fetching => 1
      case Running(_) => 3
      case Storing(_, _) => 2
      case Gone => 0
  }

  lemma {:induction false} PlacesUpdate<R>(places: seq<Place<R>>, w: nat, place: Place<R>)
    requires w < |places|
    ensures PlacesLeft(places[w := place]) - PlacesLeft([place]) == PlacesLeft(places) - PlacesLeft([places[w]])
    decreases |places|
  {
    if w > 0 {
      assert places[w := place][1..] == places[1..][w - 1 := place];
      PlacesUpdate(places[1..], w - 1, place);
    } else {
      assert places[w := place][1..] == places[1..];
    }
  }

  /** Every action of a worker that has not left is progress, so no schedule runs forever. */
  lemma {:induction false} StepProgresses<R(!new)>(task: nat -> R, p: Pool<R>, w: nat)
    requires w < |p.places| && !p.places[w].Gone?
    ensures Left(Step(task, p, w)) < Left(p)
  {
    PlacesUpdate(p.places, w, Step(task, p, w).places[w]);
  }

  // ----- The pool as objects and loops.

  /** The shared counter and slots, and the places of the workers over them. */
  class Epoch<R(!new)> {
    var next: nat
    var slots: seq<Option<R>>
    var places: seq<Place<R>>
    ghost var started: seq<nat>
    const task: nat -> R

    constructor (task: nat -> R, targets: nat, workers: nat)
      ensures this.task == task && State() == Start(targets, workers)
    {
      this.task := task;
      this.next, this.started := 0, [];
      this.slots := seq(targets, _ => None);
      this.places := seq(workers, _ => Fetching);
    }

    ghost function State(): Pool<R>
      reads this
    {
      Pool(next, slots, places, started)
    }

    method Act(w: nat)
      requires w < |places|
      modifies this
      ensures State() == Step(task, old(State()), w)
    {
      match places[w] {
        case Fetching =>
          var index := next;
          next := next + 1;
          if index < |slots| {
            places := places[w := Running(index)];
            started := started + [index];
          } else {
            places := places[w := Gone];
          }
        case Running(index) => places := places[w := Storing(index, task(index))];
        case Storing(index, outcome) =>
          places := places[w := Fetching];
          if index < |slots| {
            slots := slots[index := Some(outcome)];
          }
        case Gone =>
      }
    }

    /** Workers picked in any order until all have left. */
    method RunAll()
      requires |places| >= 1 && Inv(task, State())
      modifies this
      ensures Finished(State()) && slots == Sequential(task, |old(slots)|) && |started| == |slots|
    {
      while exists w: nat :: w < |places| && !places[w].Gone?
        invariant Inv(task, State()) && |slots| == |old(slots)| && |places| == |old(places)|
        decreases Left(State())
      {
        var w: nat :| w < |places| && !places[w].Gone?;
        StepInv(task, State(), w);
        StepProgresses(task, State(), w);
        Act(w);
      }
      FinishedSlots(task, State());
    }
  }

  lemma {:induction false} FinishedSlots<R(!new)>(task: nat -> R, p: Pool<R>)
    requires Inv(task, p) && Finished(p) && |p.places| >= 1
    ensures p.slots == Sequential(task, |p.slots|) && |p.started| == |p.slots|
  {
    assert p.places[0].Gone?;
    forall i: nat | i < |p.slots|
      ensures p.slots[i] == Some(task(i))
    {
      assert !Held(p, i);
    }
  }

  /** The loop one worker runs when there are no others. */
  method RunSequentially<R>(task: nat -> R, targets: nat) returns (slots: seq<Option<R>>)
    ensures slots == Sequential(task, targets)
  {
    slots := [];
    for index := 0 to targets
      invariant |slots| == index && forall i | 0 <= i < index :: slots[i] == Some(task(i))
    {
      slots := slots + [Some(task(index))];
    }
  }

  // ----- Which tasks have their partition to themselves.

  ghost predicate Alone(partitions: seq<nat>, i: nat)
    requires i < |partitions|
  {
    partitions[i] != 0 && forall j | 0 <= j < |partitions| && j != i :: partitions[j] != partitions[i]
  }

  function CountIn(s: seq<nat>, x: nat): nat
  {
    if s == [] then 0 else (if s[0] == x then 1 else 0) + CountIn(s[1..], x)
  }

  lemma {:induction false} CountAlone(s: seq<nat>, i: nat)
    requires i < |s|
    ensures CountIn(s, s[i]) >= 1
    ensures CountIn(s, s[i]) == 1 <==> forall j | 0 <= j < |s| && j != i :: s[j] != s[i]
    decreases |s|
  {
    var rest := s[1..];
    CountZero(rest, s[i]);
    if i > 0 {
      CountAlone(rest, i - 1);
      if CountIn(s, s[i]) == 1 {
        forall j | 0 <= j < |s| && j != i ensures s[j] != s[i] {
          if j > 0 {
            assert rest[j - 1] == s[j];
          }
        }
      } else if s[0] != s[i] {
        var k :| 0 <= k < |rest| && k != i - 1 && rest[k] == rest[i - 1];
        assert s[k + 1] == s[i];
      }
    } else if CountIn(rest, s[0]) == 0 {
      assert forall j | 0 < j < |s| :: s[j] == rest[j - 1];
    } else {
      var k :| 0 <= k < |rest| && rest[k] == s[0];
      assert s[k + 1] == s[0];
    }
  }

  lemma {:induction false} CountZero(s: seq<nat>, x: nat)
    ensures CountIn(s, x) == 0 <==> x !in s
  {
    if s != [] {
      CountZero(s[1..], x);
      assert s == [s[0]] + s[1..];
    }
  }

  /** A task is exclusive when its target's partition is not the module's and no other target has it. */
  method ExclusiveTasks(partitions: seq<nat>) returns (exclusive: seq<bool>)
    ensures |exclusive| == |partitions|
    ensures forall i | 0 <= i < |partitions| :: exclusive[i] <==> Alone(partitions, i)
  {
    exclusive := [];
    for i := 0 to |partitions|
      invariant |exclusive| == i && forall k | 0 <= k < i :: exclusive[k] <==> Alone(partitions, k)
    {
      var sharing := CountIn(partitions, partitions[i]);
      CountAlone(partitions, i);
      exclusive := exclusive + [partitions[i] != 0 && sharing == 1];
    }
  }
}
