/**
  The use replacements of a batch: an ordered log of `(old, new)` pairs, and
  the one map a commit replays it through.
 */
module Replacements {
  type Log = seq<(nat, nat)>

  /** The log applied to a value, one replacement after another. */
  function Replay(log: Log, v: nat): nat
  {
    if log == [] then v
    else
      var before := Replay(log[..|log| - 1], v);
      var (gone, kept) := log[|log| - 1];
      if before == gone then kept else before
  }

  function Redirect(m: map<nat, nat>, gone: nat, kept: nat): map<nat, nat>
  {
    (map k | k in m :: if m[k] == gone then kept else m[k])[gone := kept]
  }

  function MapOf(log: Log): map<nat, nat>
  {
    if log == [] then map[] else Redirect(MapOf(log[..|log| - 1]), log[|log| - 1].0, log[|log| - 1].1)
  }

  function Apply(m: map<nat, nat>, v: nat): nat { if v in m then m[v] else v }

  method RetargetMap(log: Log) returns (m: map<nat, nat>)
    ensures m == MapOf(log)
  {
    m := map[];
    for i := 0 to |log|
      invariant m == MapOf(log[..i])
    {
      assert log[..i + 1][..i] == log[..i];
      var (gone, kept) := log[i];
      m := map k | k in m :: if m[k] == gone then kept else m[k];
      m := m[gone := kept];
    }
    assert log[..|log|] == log;
  }

  ghost function Retired(log: Log): set<nat> { set p | p in log :: p.0 }

  ghost function Replacing(log: Log): set<nat> { set p | p in log :: p.1 }

  lemma {:induction false} LogSplit(log: Log)
    requires log != []
    ensures Retired(log) == Retired(log[..|log| - 1]) + {log[|log| - 1].0}
    ensures Replacing(log) == Replacing(log[..|log| - 1]) + {log[|log| - 1].1}
  {
  }

  lemma {:induction false} MapKeys(log: Log)
    ensures MapOf(log).Keys == Retired(log)
  {
    if log != [] {
      LogSplit(log);
      MapKeys(log[..|log| - 1]);
    }
  }

  /** The replacement is for a value not retired before, or for one that now stands where it goes. */
  ghost predicate Consistent(log: Log, i: nat)
    requires i < |log|
  {
    log[i].0 in Retired(log[..i]) ==> Replay(log[..i + 1], log[i].0) == log[i].1
  }

  ghost predicate SameAsReplay(log: Log) { forall v: nat :: Apply(MapOf(log), v) == Replay(log, v) }

  lemma {:induction false} MapStep(log: Log)
    requires log != [] && SameAsReplay(log[..|log| - 1])
    ensures SameAsReplay(log) <==> Consistent(log, |log| - 1)
  {
    var n := |log| - 1;
    var init := log[..n];
    var (gone, kept) := log[n];
    MapKeys(init);
    assert log[..n + 1] == log;
    var m := MapOf(init);
    assert forall v: nat | v != gone :: Apply(MapOf(log), v) == if Apply(m, v) == gone then kept else Apply(m, v);
    if SameAsReplay(log) {
      assert Apply(MapOf(log), gone) == Replay(log, gone);
    }
    if Consistent(log, n) {
      forall v: nat
        ensures Apply(MapOf(log), v) == Replay(log, v)
      {
        assert Apply(m, v) == Replay(init, v);
        assert Apply(m, gone) == Replay(init, gone);
      }
    }
  }

  /**
    Applying the map once is replaying the log, at every point of the log,
    exactly when no entry retires again a value that stands elsewhere by then.
   */
  lemma {:induction false} MapIsReplay(log: Log)
    ensures (forall n: nat | n <= |log| :: SameAsReplay(log[..n])) <==> forall i: nat | i < |log| :: Consistent(log, i)
  {
    if log == [] {
      assert forall n: nat | n <= |log| :: log[..n] == [];
    } else {
      var n := |log| - 1;
      var init := log[..n];
      MapIsReplay(init);
      assert forall k: nat | k <= n :: init[..k] == log[..k];
      assert log[..n + 1] == log;
      forall i: nat | i < n
        ensures Consistent(init, i) <==> Consistent(log, i)
      {
        assert init[..i] == log[..i] && init[..i + 1] == log[..i + 1];
      }
      if forall i: nat | i < n :: Consistent(log, i) {
        assert SameAsReplay(init[..n]) && init[..n] == init;
        MapStep(log);
      }
    }
  }

  // ----- The whole log.

  ghost predicate IsFirst(log: Log, i: nat)
    requires i < |log|
  {
    forall k: nat | k < i :: log[k].0 != log[i].0
  }

  ghost predicate IsLast(log: Log, i: nat)
    requires i < |log|
  {
    forall k: nat | i < k < |log| :: log[k].0 != log[i].0
  }

  /** Where an entry leads by the end of the log. */
  function Leads(log: Log, i: nat): nat
    requires i < |log|
  {
    Replay(log[i + 1..], log[i].1)
  }

  lemma {:induction false} ReplaySplit(a: Log, b: Log, v: nat)
    ensures Replay(a + b, v) == Replay(b, Replay(a, v))
    decreases |b|
  {
    if b == [] {
      assert a + b == a;
    } else {
      var n := |b| - 1;
      assert (a + b)[..|a| + n] == a + b[..n];
      ReplaySplit(a, b[..n], v);
    }
  }

  lemma {:induction false} ReplayPasses(log: Log, v: nat)
    requires forall k: nat | k < |log| :: log[k].0 != v
    ensures Replay(log, v) == v
  {
    if log != [] {
      ReplayPasses(log[..|log| - 1], v);
    }
  }

  /** Replayed, a value goes where its first retirement leads. */
  lemma {:induction false} ReplayFollowsFirst(log: Log, i: nat)
    requires i < |log| && IsFirst(log, i)
    ensures Replay(log, log[i].0) == Leads(log, i)
  {
    var v := log[i].0;
    assert log == (log[..i] + [log[i]]) + log[i + 1..];
    ReplaySplit(log[..i] + [log[i]], log[i + 1..], v);
    ReplaySplit(log[..i], [log[i]], v);
    ReplayPasses(log[..i], v);
    var one: Log := [log[i]];
    assert one[..0] == [];
  }

  /** In the map, a value goes where its last retirement leads. */
  lemma {:induction false} MapFollowsLast(log: Log, i: nat)
    requires i < |log| && IsLast(log, i)
    ensures log[i].0 in MapOf(log) && MapOf(log)[log[i].0] == Leads(log, i)
    decreases |log|
  {
    var n := |log| - 1;
    var init := log[..n];
    if i == n {
      assert log[i + 1..] == [];
    } else {
      assert init[i] == log[i];
      MapFollowsLast(init, i);
      assert log[i + 1..][..n - i - 1] == init[i + 1..];
    }
  }

  lemma {:induction false} Ends(log: Log, v: nat) returns (first: nat, last: nat)
    requires v in Retired(log)
    ensures first < |log| && last < |log| && log[first].0 == log[last].0 == v && IsFirst(log, first) && IsLast(log, last)
    decreases |log|
  {
    var n := |log| - 1;
    LogSplit(log);
    if v in Retired(log[..n]) {
      first, last := Ends(log[..n], v);
      if log[n].0 == v {
        last := n;
      }
    } else {
      first, last := n, n;
      assert forall k: nat | k < n :: log[..n][k] in log[..n] && log[..n][k].0 in Retired(log[..n]);
    }
  }

  /**
    For the log as a whole, applying the map once is replaying it exactly when
    the first and the last retirement of every value lead to the same place.
   */
  lemma {:induction false} MapIsReplayOfWhole(log: Log)
    ensures SameAsReplay(log) <==>
              forall i: nat, j: nat | i < |log| && j < |log| && log[i].0 == log[j].0 && IsFirst(log, i) && IsLast(log, j) :: Leads(log, i) == Leads(log, j)
  {
    MapKeys(log);
    forall i: nat, j: nat | i < |log| && j < |log| && log[i].0 == log[j].0 && IsFirst(log, i) && IsLast(log, j)
      ensures Apply(MapOf(log), log[i].0) == Leads(log, j) && Replay(log, log[i].0) == Leads(log, i)
    {
      ReplayFollowsFirst(log, i);
      MapFollowsLast(log, j);
    }
    if forall i: nat, j: nat | i < |log| && j < |log| && log[i].0 == log[j].0 && IsFirst(log, i) && IsLast(log, j) :: Leads(log, i) == Leads(log, j) {
      forall v: nat
        ensures Apply(MapOf(log), v) == Replay(log, v)
      {
        if v in Retired(log) {
          var i, j := Ends(log, v);
          assert Leads(log, i) == Leads(log, j);
        } else {
          assert forall k: nat | k < |log| :: log[k] in log && log[k].0 in Retired(log);
          ReplayPasses(log, v);
        }
      }
    }
  }

  /** Where a value stands by the end: it was never retired, or its last retirement leads there. */
  ghost predicate GoesTo(log: Log, v: nat, w: nat)
  {
    || (w == v && forall k: nat | k < |log| :: log[k].0 != v)
    || exists i: nat :: i < |log| && log[i].0 == v && IsLast(log, i) && w == Leads(log, i)
  }

  lemma {:induction false} AppliedGoes(log: Log, v: nat, w: nat)
    ensures Apply(MapOf(log), v) == w <==> GoesTo(log, v, w)
  {
    MapKeys(log);
    if v in Retired(log) {
      var first, last := Ends(log, v);
      MapFollowsLast(log, last);
      assert forall i: nat | i < |log| && log[i].0 == v && IsLast(log, i) :: i == last;
    } else {
      assert forall k: nat | k < |log| :: log[k] in log && log[k].0 in Retired(log);
    }
  }

  /** A value retired twice shows it: its second replacement wins in the map, its first in the replay. */
  lemma {:induction false} RetiredTwiceDiffers(a: nat, b: nat, c: nat)
    requires a != b && b != c
    ensures Apply(MapOf([(a, b), (a, c)]), a) == c && Replay([(a, b), (a, c)], a) == b
  {
    var log := [(a, b), (a, c)];
    assert log[..1] == [(a, b)] && [(a, b)][..0] == [];
    assert MapOf([(a, b)]) == map[a := b] && Replay([(a, b)], a) == b;
  }

  /** No value is retired twice, and none replaces another once it is retired. */
  ghost predicate Disciplined(log: Log)
  {
    && (forall i, j | 0 <= i < j < |log| :: log[i].0 != log[j].0)
    && (forall i, j | 0 <= i <= j < |log| :: log[j].1 != log[i].0)
  }

  /** Under that discipline the map sends retired values to replacements that stay. */
  lemma {:induction false} MapIsFinal(log: Log)
    requires Disciplined(log)
    ensures MapOf(log).Keys == Retired(log)
    ensures forall v | v in MapOf(log) :: MapOf(log)[v] !in Retired(log) && MapOf(log)[v] in Replacing(log)
  {
    MapKeys(log);
    if log != [] {
      var n := |log| - 1;
      var init := log[..n];
      MapIsFinal(init);
      LogSplit(log);
      forall v | v in MapOf(log)
        ensures MapOf(log)[v] !in Retired(log) && MapOf(log)[v] in Replacing(log)
      {
        NewIsFresh(log);
      }
    }
  }

  lemma {:induction false} NewIsFresh(log: Log)
    requires Disciplined(log) && log != []
    ensures log[|log| - 1].1 !in Retired(log)
  {
  }

  lemma {:induction false} DisciplinedIsConsistent(log: Log, i: nat)
    requires Disciplined(log) && i < |log|
    ensures Consistent(log, i)
  {
  }

  /** So under that discipline the map applied once is the ordered replay. */
  lemma {:induction false} DisciplinedReplays(log: Log)
    requires Disciplined(log)
    ensures SameAsReplay(log)
  {
    forall i: nat | i < |log|
      ensures Consistent(log, i)
    {
      DisciplinedIsConsistent(log, i);
    }
    MapIsReplay(log);
    assert SameAsReplay(log[..|log|]) && log[..|log|] == log;
  }
}
