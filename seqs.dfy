/** Sequence combinators for a stream processed one element at a time, in order. */
module Seqs {
  import opened Wrappers

  /** The present results of `f` over `xs`, in the order of `xs`; each element yields at most one. */
  function FilterMap<T, U>(f: T -> Option<U>, xs: seq<T>): (r: seq<U>)
    ensures |r| <= |xs|
  {
    if xs == [] then []
    else
      match f(xs[0])
      case Some(y) => [y] + FilterMap(f, xs[1..])
      case None => FilterMap(f, xs[1..])
  }

  /** Every index of `s` moved one place on. */
  function Shift(s: seq<nat>): seq<nat> {
    seq(|s|, k requires 0 <= k < |s| => s[k] + 1)
  }

  /**
   * `idx` gives, for each element of FilterMap(f, xs), the index in `xs` it came from:
   * the indices rise strictly, and they are exactly the elements for which `f` gives a result.
   */
  ghost predicate IsOrigins<T, U>(f: T -> Option<U>, xs: seq<T>, idx: seq<nat>) {
    var fm := FilterMap(f, xs);
    |idx| == |fm|
    && (forall k :: 0 <= k < |idx| ==> idx[k] < |xs| && f(xs[idx[k]]) == Some(fm[k]))
    && Increasing(idx)
    && (forall i :: 0 <= i < |xs| && f(xs[i]).Some? ==> i in idx)
  }

  /** The source index of every element FilterMap keeps. */
  function Origins<T, U>(f: T -> Option<U>, xs: seq<T>): (idx: seq<nat>)
    ensures IsOrigins(f, xs, idx)
  {
    if xs == [] then []
    else
      var tail := Origins(f, xs[1..]);
      if f(xs[0]).Some? then
        OriginsConsKept(f, xs, tail);
        [0] + Shift(tail)
      else
        OriginsConsDropped(f, xs, tail);
        Shift(tail)
  }

  /** Indices that rise strictly. */
  ghost predicate Increasing(s: seq<nat>) {
    forall k, l :: 0 <= k < l < |s| ==> s[k] < s[l]
  }

  /** Shifting keeps indices rising, and a 0 may go in front. */
  lemma ShiftIncreasing(s: seq<nat>)
    requires Increasing(s)
    ensures Increasing(Shift(s)) && Increasing([0] + Shift(s))
  {
    var r := Shift(s);
    assert Increasing(r) by {
      forall k, l | 0 <= k < l < |r| ensures r[k] < r[l] {
        assert s[k] < s[l];
      }
    }
    forall k, l | 0 <= k < l < |[0] + r| ensures ([0] + r)[k] < ([0] + r)[l] {
      if k > 0 { assert r[k - 1] < r[l - 1]; }
    }
  }

  /** The origins of a sequence whose head is kept: 0, then the tail's origins moved one on. */
  lemma OriginsConsKept<T, U>(f: T -> Option<U>, xs: seq<T>, tail: seq<nat>)
    requires xs != [] && f(xs[0]).Some? && IsOrigins(f, xs[1..], tail)
    ensures IsOrigins(f, xs, [0] + Shift(tail))
  {
    ShiftIncreasing(tail);
    OriginsConsWith(f, xs, tail, [0] + Shift(tail), [f(xs[0]).value] + FilterMap(f, xs[1..]), 1);
  }

  /** The origins of a sequence whose head is dropped: the tail's origins moved one on. */
  lemma OriginsConsDropped<T, U>(f: T -> Option<U>, xs: seq<T>, tail: seq<nat>)
    requires xs != [] && f(xs[0]).None? && IsOrigins(f, xs[1..], tail)
    ensures IsOrigins(f, xs, Shift(tail))
  {
    ShiftIncreasing(tail);
    OriginsConsWith(f, xs, tail, Shift(tail), FilterMap(f, xs[1..]), 0);
  }

  /** The cons step of Origins for `d` kept elements in front (`d` is 1 when the head is kept, else 0). */
  lemma {:induction false} OriginsConsWith<T, U>(f: T -> Option<U>, xs: seq<T>, tail: seq<nat>,
                                                 idx: seq<nat>, fm: seq<U>, d: nat)
    requires xs != [] && IsOrigins(f, xs[1..], tail)
    requires d == (if f(xs[0]).Some? then 1 else 0)
    requires fm == (if f(xs[0]).Some? then [f(xs[0]).value] else []) + FilterMap(f, xs[1..])
    requires |idx| == d + |tail| && Increasing(idx)
    requires d == 1 ==> idx[0] == 0
    requires forall k :: 0 <= k < |tail| ==> idx[k + d] == tail[k] + 1
    ensures IsOrigins(f, xs, idx)
  {
    assert FilterMap(f, xs) == fm;
    OriginsConsPoints(f, xs, tail, idx, fm, d);
    OriginsConsComplete(f, xs, tail, idx, d);
  }

  /** Each index the cons step gives points at an element whose result is the one kept there. */
  lemma {:induction false} OriginsConsPoints<T, U>(f: T -> Option<U>, xs: seq<T>, tail: seq<nat>,
                                                   idx: seq<nat>, fm: seq<U>, d: nat)
    requires xs != [] && IsOrigins(f, xs[1..], tail)
    requires d == (if f(xs[0]).Some? then 1 else 0)
    requires fm == (if f(xs[0]).Some? then [f(xs[0]).value] else []) + FilterMap(f, xs[1..])
    requires |idx| == d + |tail|
    requires d == 1 ==> idx[0] == 0
    requires forall k :: 0 <= k < |tail| ==> idx[k + d] == tail[k] + 1
    ensures forall k :: 0 <= k < |idx| ==> idx[k] < |xs| && f(xs[idx[k]]) == Some(fm[k])
  {
    var ft := FilterMap(f, xs[1..]);
    var front: seq<U> := if f(xs[0]).Some? then [f(xs[0]).value] else [];
    assert |front| == d && fm == front + ft;
    forall k | 0 <= k < |idx|
      ensures idx[k] < |xs| && f(xs[idx[k]]) == Some(fm[k])
    {
      if k >= d {
        assert fm[k] == ft[k - d];
        assert idx[k] == tail[k - d] + 1;
        assert xs[idx[k]] == xs[1..][tail[k - d]];
      }
    }
  }

  /** Every element with a result has its index among those the cons step gives. */
  lemma {:induction false} OriginsConsComplete<T, U>(f: T -> Option<U>, xs: seq<T>, tail: seq<nat>,
                                                     idx: seq<nat>, d: nat)
    requires xs != [] && IsOrigins(f, xs[1..], tail)
    requires d == (if f(xs[0]).Some? then 1 else 0)
    requires |idx| == d + |tail|
    requires d == 1 ==> idx[0] == 0
    requires forall k :: 0 <= k < |tail| ==> idx[k + d] == tail[k] + 1
    ensures forall i :: 0 <= i < |xs| && f(xs[i]).Some? ==> i in idx
  {
    forall i | 0 <= i < |xs| && f(xs[i]).Some?
      ensures i in idx
    {
      if i == 0 {
        assert idx[0] == 0;
      } else {
        assert xs[1..][i - 1] == xs[i];
        var k :| 0 <= k < |tail| && tail[k] == i - 1;
        assert idx[k + d] == i;
      }
    }
  }

  /** Filtering a concatenation filters each part. */
  lemma {:induction false} FilterMapAppend<T, U>(f: T -> Option<U>, xs: seq<T>, ys: seq<T>)
    ensures FilterMap(f, xs + ys) == FilterMap(f, xs) + FilterMap(f, ys)
  {
    if xs == [] {
      assert xs + ys == ys;
    } else {
      assert (xs + ys)[1..] == xs[1..] + ys;
      FilterMapAppend(f, xs[1..], ys);
    }
  }

  /** Filtering one element more appends that element's result, if any. */
  lemma FilterMapSnoc<T, U>(f: T -> Option<U>, xs: seq<T>, x: T)
    ensures FilterMap(f, xs + [x]) == FilterMap(f, xs) + (if f(x).Some? then [f(x).value] else [])
  {
    FilterMapAppend(f, xs, [x]);
    assert [x][1..] == [];
  }

  /** Filtering agrees on inputs where the two maps agree element by element. */
  lemma {:induction false} FilterMapPointwise<T, U>(f: T -> Option<U>, g: T -> Option<U>, xs: seq<T>)
    requires forall i :: 0 <= i < |xs| ==> f(xs[i]) == g(xs[i])
    ensures FilterMap(f, xs) == FilterMap(g, xs)
  {
    if xs != [] {
      assert forall i :: 0 <= i < |xs[1..]| ==> f(xs[1..][i]) == g(xs[1..][i]) by {
        forall i | 0 <= i < |xs[1..]| ensures f(xs[1..][i]) == g(xs[1..][i]) {
          assert xs[1..][i] == xs[i + 1];
        }
      }
      FilterMapPointwise(f, g, xs[1..]);
    }
  }

  /** The concatenation, in order, of the pieces `f` gives for each element. */
  function FlatMap<T, U>(f: T -> seq<U>, xs: seq<T>): seq<U>
  {
    if xs == [] then [] else f(xs[0]) + FlatMap(f, xs[1..])
  }

  /** Flattening a concatenation flattens each part. */
  lemma {:induction false} FlatMapAppend<T, U>(f: T -> seq<U>, xs: seq<T>, ys: seq<T>)
    ensures FlatMap(f, xs + ys) == FlatMap(f, xs) + FlatMap(f, ys)
  {
    if xs == [] {
      assert xs + ys == ys;
    } else {
      assert (xs + ys)[1..] == xs[1..] + ys;
      FlatMapAppend(f, xs[1..], ys);
    }
  }

  /** Flattening one element more appends that element's piece. */
  lemma FlatMapSnoc<T, U>(f: T -> seq<U>, xs: seq<T>, x: T)
    ensures FlatMap(f, xs + [x]) == FlatMap(f, xs) + f(x)
  {
    FlatMapAppend(f, xs, [x]);
    assert [x][1..] == [];
    assert FlatMap(f, [x]) == f(x) + FlatMap(f, []);
  }

  /** Flattening agrees on inputs where the two maps agree element by element. */
  lemma {:induction false} FlatMapPointwise<T, U>(f: T -> seq<U>, g: T -> seq<U>, xs: seq<T>)
    requires forall i :: 0 <= i < |xs| ==> f(xs[i]) == g(xs[i])
    ensures FlatMap(f, xs) == FlatMap(g, xs)
  {
    if xs != [] {
      assert forall i :: 0 <= i < |xs[1..]| ==> f(xs[1..][i]) == g(xs[1..][i]) by {
        forall i | 0 <= i < |xs[1..]| ensures f(xs[1..][i]) == g(xs[1..][i]) {
          assert xs[1..][i] == xs[i + 1];
        }
      }
      FlatMapPointwise(f, g, xs[1..]);
    }
  }
}
