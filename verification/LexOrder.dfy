/**
  The lexicographic order on vectors of naturals of one length, and an ordinal
  height for it: a decreasing measure for procedures whose work shrinks the
  number of items of some rank while adding any number of items of lower ranks.
 */
module LexOrder {
  type Vec = seq<nat>

  ghost predicate Less(a: Vec, b: Vec)
  {
    |a| == |b| && exists k :: 0 <= k < |a| && a[..k] == b[..k] && a[k] < b[k]
  }

  /** Every descending chain from `v` is finite. */
  least predicate Acc(v: Vec)
  {
    forall w :: Less(w, v) ==> Acc(w)
  }

  ghost predicate Bounds(k: ORDINAL, v: Vec)
  {
    Acc#[k](v)
  }

  ghost predicate Least(k: ORDINAL, v: Vec)
  {
    Bounds(k, v) && forall j: ORDINAL :: Bounds(j, v) ==> k <= j
  }

  lemma {:induction false} LeastExists(k: ORDINAL, v: Vec)
    requires Bounds(k, v)
    ensures exists m: ORDINAL :: Least(m, v)
    decreases k
  {
    if j: ORDINAL :| Bounds(j, v) && j < k {
      LeastExists(j, v);
    } else {
      assert Least(k, v);
    }
  }

  /** The height of `v`: how many ordinal steps a descent from it can take. */
  ghost function Height(v: Vec): ORDINAL
  {
    if m: ORDINAL :| Least(m, v) then m else 0
  }

  lemma {:induction false} HeightIsLeast(v: Vec)
    requires Acc(v)
    ensures Least(Height(v), v)
  {
    var k: ORDINAL :| Acc#[k](v);
    assert Bounds(k, v);
    LeastExists(k, v);
  }

  lemma {:induction false} HeightDescends(w: Vec, v: Vec)
    requires Acc(v) && Acc(w) && Less(w, v)
    ensures Height(w) < Height(v)
  {
    HeightIsLeast(v);
    HeightIsLeast(w);
    var k := Height(v);
    assert Acc#[k](v);
    if k.IsLimit {
      var j: ORDINAL :| j < k && Acc#[j](v);
      assert Bounds(j, v);
      assert false;
    } else {
      assert Acc#[k - 1](w);
      assert Bounds(k - 1, w);
    }
  }

  lemma {:induction false} AccCons(h: nat, tail: Vec)
    requires forall t: Vec | |t| == |tail| :: Acc(t)
    ensures Acc([h] + tail)
    decreases h, Height(tail)
  {
    var v := [h] + tail;
    forall w: Vec | Less(w, v)
      ensures Acc(w)
    {
      var t := w[1..];
      assert w == [w[0]] + t;
      var k :| 0 <= k < |w| && w[..k] == v[..k] && w[k] < v[k];
      if k == 0 {
        AccCons(w[0], t);
      } else {
        assert w[..k][0] == v[..k][0];
        assert t[..k - 1] == w[..k][1..] && tail[..k - 1] == v[..k][1..];
        assert Less(t, tail);
        HeightDescends(t, tail);
        AccCons(h, t);
      }
    }
  }

  lemma {:induction false} AccAll(v: Vec)
    ensures Acc(v)
    decreases |v|
  {
    if v != [] {
      forall t: Vec | |t| == |v| - 1
        ensures Acc(t)
      {
        AccAll(t);
      }
      AccCons(v[0], v[1..]);
      assert v == [v[0]] + v[1..];
    } else {
      assert forall w: Vec :: !Less(w, v);
    }
  }

  /** The order is well founded: the height is strictly monotone. */
  lemma {:induction false} WellFounded(w: Vec, v: Vec)
    requires Less(w, v)
    ensures Height(w) < Height(v)
  {
    AccAll(w);
    AccAll(v);
    HeightDescends(w, v);
  }

  /** A vector no larger up to `k` and strictly smaller at `k` is below. */
  lemma {:induction false} DropsBelow(a: Vec, b: Vec, k: nat)
    requires |a| == |b| && k < |a| && a[k] < b[k]
    requires forall j | 0 <= j < k :: a[j] <= b[j]
    ensures Height(a) < Height(b)
  {
    BelowAt(a, b, k);
    WellFounded(a, b);
  }

  lemma {:induction false} BelowAt(a: Vec, b: Vec, k: nat)
    requires |a| == |b| && k < |a| && a[k] < b[k]
    requires forall j | 0 <= j < k :: a[j] <= b[j]
    ensures Less(a, b)
    decreases k
  {
    if j :| 0 <= j < k && a[j] < b[j] {
      BelowAt(a, b, j);
    } else {
      assert a[..k] == b[..k];
    }
  }
}
