/** Facts about sequences that several components rely on. */
module Seqs {
  function Elements(s: seq<nat>): set<nat> { set x | x in s }

  ghost predicate Distinct(s: seq<nat>) { forall i, j | 0 <= i < j < |s| :: s[i] != s[j] }

  lemma TakeOneMore<T>(s: seq<T>, i: nat)
    requires i < |s|
    ensures s[..i + 1] == s[..i] + [s[i]]
  {
  }

  lemma SliceOfSlice<T>(s: seq<T>, lo: nat, hi: nat, i: nat, j: nat)
    requires lo <= hi <= |s| && i <= j <= hi - lo
    ensures s[lo..hi][i..j] == s[lo + i..lo + j]
  {
    var x, y := s[lo..hi][i..j], s[lo + i..lo + j];
    assert |x| == |y|;
    assert forall k | 0 <= k < |x| :: x[k] == y[k];
  }

  lemma Split<T>(s: seq<T>, lo: nat, mid: nat)
    requires lo <= mid <= |s|
    ensures s[lo..] == s[lo..mid] + s[mid..]
  {
  }

  lemma PrependTake<T>(s: seq<T>, q: seq<T>, n: nat)
    requires 1 <= n <= |q|
    ensures s + [q[0]] + q[1..][..n - 1] == s + q[..n]
  {
  }

  lemma {:induction false} RemovedMultiset<T>(s: seq<T>, i: nat)
    requires i < |s|
    ensures multiset(s[..i] + s[i + 1..]) == multiset(s) - multiset{s[i]}
  {
    assert s == s[..i] + [s[i]] + s[i + 1..];
  }

  /** Two places of a sequence have two places in any reordering of it. */
  lemma {:induction false} TwoPlaces<T>(a: seq<T>, b: seq<T>, i: nat, j: nat) returns (k: nat, l: nat)
    requires multiset(a) == multiset(b) && i < j < |a|
    ensures k < |b| && l < |b| && k != l && b[k] == a[i] && b[l] == a[j]
  {
    assert a[i] in multiset(b);
    k :| k < |b| && b[k] == a[i];
    RemovedMultiset(a, i);
    RemovedMultiset(b, k);
    var rest := a[..i] + a[i + 1..];
    assert rest[j - 1] == a[j];
    assert a[j] in multiset(rest);
    var m: nat :| m < |b| - 1 && (b[..k] + b[k + 1..])[m] == a[j];
    l := if m < k then m else m + 1;
  }

  ghost predicate Images<T, U>(a: seq<T>, f: T -> U, x: seq<U>) { |x| == |a| && forall i: nat | i < |a| :: x[i] == f(a[i]) }

  lemma {:induction false} ImagesRemoved<T, U>(a: seq<T>, f: T -> U, x: seq<U>, i: nat)
    requires Images(a, f, x) && i < |a|
    ensures Images(a[..i] + a[i + 1..], f, x[..i] + x[i + 1..])
  {
  }

  /** Images of reordered sequences are reordered. */
  lemma {:induction false} ReorderedImages<T, U>(a: seq<T>, b: seq<T>, f: T -> U, x: seq<U>, y: seq<U>)
    requires multiset(a) == multiset(b) && Images(a, f, x) && Images(b, f, y)
    ensures multiset(x) == multiset(y)
    decreases |a|
  {
    assert |multiset(a)| == |a| && |multiset(b)| == |b|;
    if a == [] {
      assert x == y;
    } else {
      assert a[0] in multiset(b);
      var i: nat :| i < |b| && b[i] == a[0];
      RestReordered(a, b, i);
      ImagesRemoved(a, f, x, 0);
      ImagesRemoved(b, f, y, i);
      ReorderedImages(a[..0] + a[0 + 1..], b[..i] + b[i + 1..], f, x[..0] + x[0 + 1..], y[..i] + y[i + 1..]);
      RestoreReordered(x, y, i);
    }
  }

  lemma {:induction false} RestReordered<T>(a: seq<T>, b: seq<T>, i: nat)
    requires multiset(a) == multiset(b) && a != [] && i < |b| && b[i] == a[0]
    ensures multiset(a[..0] + a[0 + 1..]) == multiset(b[..i] + b[i + 1..])
  {
    RemovedMultiset(a, 0);
    RemovedMultiset(b, i);
  }

  lemma {:induction false} RestoreReordered<T>(x: seq<T>, y: seq<T>, i: nat)
    requires x != [] && i < |y| && y[i] == x[0] && multiset(x[..0] + x[0 + 1..]) == multiset(y[..i] + y[i + 1..])
    ensures multiset(x) == multiset(y)
  {
    RemovedMultiset(x, 0);
    RemovedMultiset(y, i);
    Readd(x, y, x[0]);
  }

  lemma {:induction false} Readd<U>(x: seq<U>, y: seq<U>, e: U)
    requires e in x && e in y && multiset(x) - multiset{e} == multiset(y) - multiset{e}
    ensures multiset(x) == multiset(y)
  {
    assert multiset(x) == multiset(x) - multiset{e} + multiset{e};
    assert multiset(y) == multiset(y) - multiset{e} + multiset{e};
  }
}
