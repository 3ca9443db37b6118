/**
 * Ragged (jagged) per-event collections: the outer index is the event, the
 * inner index is the object within that event.  This module gives the two
 * kinds of selection the analysis code relies on -- keeping the objects that
 * satisfy a predicate, and keeping the events that pass a boolean mask --
 * together with the facts about them that the selectors and axes build on.
 */
module Ragged {

  /** Failures that the columnar array library raises for ill-shaped selections. */
  datatype Error =
    | IndexOutOfRange      // `coll[mask, k]` where a passing event has at most k objects
    | MaskLengthMismatch   // an event mask whose length is not the number of events
    | JaggedMaskMismatch   // a per-object mask whose inner lengths differ from the collection's
    | ShapeMismatch        // elementwise arithmetic on two ragged arrays of different shapes

  datatype Result<T> = Ok(value: T) | Err(error: Error)

  function Abs(x: int): (r: nat)
    ensures r == x || r == -x
  {
    if x < 0 then -x else x
  }

  function AbsReal(x: real): (r: real)
    ensures r >= 0.0 && (r == x || r == -x)
  {
    if x < 0.0 then -x else x
  }

  // ---------------------------------------------------------------------
  // Keeping the objects that satisfy a predicate (one event)
  // ---------------------------------------------------------------------

  /** The elements of `s` that satisfy `p`, in their original order. */
  function Filter<T(!new)>(s: seq<T>, p: T -> bool): (r: seq<T>)
    ensures |r| <= |s|
    ensures forall x :: x in r <==> x in s && p(x)
  {
    if s == [] then [] else (if p(s[0]) then [s[0]] else []) + Filter(s[1..], p)
  }

  /** `a` can be obtained from `b` by deleting elements (order is kept). */
  predicate IsSubsequence<T(==)>(a: seq<T>, b: seq<T>)
    decreases |b|
  {
    if a == [] then true
    else if b == [] then false
    else if a[0] == b[0] then IsSubsequence(a[1..], b[1..])
    else IsSubsequence(a, b[1..])
  }

  /**
   * `r` is exactly the selection of `s` by `p`: an order-preserving
   * subsequence that holds every element satisfying `p` as often as `s` does,
   * and no other element.
   */
  ghost predicate SelectsExactly<T(!new)>(r: seq<T>, s: seq<T>, p: T -> bool) {
    && IsSubsequence(r, s)
    && forall x :: multiset(r)[x] == if p(x) then multiset(s)[x] else 0
  }

  lemma {:induction false} FilterIsSubsequence<T(!new)>(s: seq<T>, p: T -> bool)
    ensures IsSubsequence(Filter(s, p), s)
  {
    if s != [] {
      FilterIsSubsequence(s[1..], p);
      var rest := Filter(s[1..], p);
      if p(s[0]) {
        assert Filter(s, p) == [s[0]] + rest;
        assert ([s[0]] + rest)[1..] == rest;
      } else {
        assert Filter(s, p) == rest;
        SubsequenceOfTail(rest, s);
      }
    }
  }

  /** A subsequence of the tail of `b` is a subsequence of `b`. */
  lemma {:induction false} SubsequenceOfTail<T>(a: seq<T>, b: seq<T>)
    requires b != [] && IsSubsequence(a, b[1..])
    ensures IsSubsequence(a, b)
    decreases |b|, 0
  {
    if a != [] && a[0] == b[0] {
      // Matching `b[0]` greedily leaves `a[1..]` to be found in `b[1..]`,
      // which follows from `a` being found there.
      SubsequenceDropFirst(a, b[1..]);
    }
  }

  /** Dropping the first element of a subsequence keeps it a subsequence. */
  lemma {:induction false} SubsequenceDropFirst<T>(a: seq<T>, b: seq<T>)
    requires a != [] && IsSubsequence(a, b)
    ensures IsSubsequence(a[1..], b)
    decreases |b|, 1
  {
    assert b != [];
    if a[0] == b[0] {
      assert IsSubsequence(a[1..], b[1..]);
      if a[1..] != [] {
        SubsequenceOfTail(a[1..], b);
      }
    } else {
      SubsequenceDropFirst(a, b[1..]);
      if a[1..] != [] {
        SubsequenceOfTail(a[1..], b);
      }
    }
  }

  lemma {:induction false} FilterMultiset<T(!new)>(s: seq<T>, p: T -> bool)
    ensures forall x :: multiset(Filter(s, p))[x] == if p(x) then multiset(s)[x] else 0
  {
    if s != [] {
      FilterMultiset(s[1..], p);
      assert s == [s[0]] + s[1..];
      assert multiset(s) == multiset([s[0]]) + multiset(s[1..]);
      var head := if p(s[0]) then [s[0]] else [];
      assert multiset(Filter(s, p)) == multiset(head) + multiset(Filter(s[1..], p));
    }
  }

  lemma FilterSelectsExactly<T(!new)>(s: seq<T>, p: T -> bool)
    ensures SelectsExactly(Filter(s, p), s, p)
  {
    FilterIsSubsequence(s, p);
    FilterMultiset(s, p);
  }

  /** An element selected exactly is in the source and satisfies the predicate, and conversely. */
  lemma SelectsExactlyMembers<T(!new)>(r: seq<T>, s: seq<T>, p: T -> bool, x: T)
    requires SelectsExactly(r, s, p)
    ensures x in r <==> x in s && p(x)
  {
    assert x in r <==> multiset(r)[x] > 0;
    assert x in s <==> multiset(s)[x] > 0;
  }

  /** Filtering by a conjunction is filtering twice. */
  lemma {:induction false} FilterConjunction<T(!new)>(s: seq<T>, p: T -> bool, q: T -> bool, pq: T -> bool)
    requires forall x :: pq(x) == (p(x) && q(x))
    ensures Filter(s, pq) == Filter(Filter(s, p), q)
  {
    if s != [] {
      FilterConjunction(s[1..], p, q, pq);
      var fp := Filter(s, p);
      if p(s[0]) {
        assert fp == [s[0]] + Filter(s[1..], p);
        assert fp != [] && fp[0] == s[0] && fp[1..] == Filter(s[1..], p);
        assert Filter(fp, q) == (if q(s[0]) then [s[0]] else []) + Filter(fp[1..], q);
      } else {
        assert fp == Filter(s[1..], p);
      }
    }
  }

  /** Two disjoint filters together keep exactly as many elements as their disjunction. */
  lemma {:induction false} FilterDisjointCount<T(!new)>(s: seq<T>, p: T -> bool, q: T -> bool, pq: T -> bool)
    requires forall x :: !(p(x) && q(x))
    requires forall x :: pq(x) == (p(x) || q(x))
    ensures |Filter(s, p)| + |Filter(s, q)| == |Filter(s, pq)|
  {
    if s != [] {
      FilterDisjointCount(s[1..], p, q, pq);
    }
  }

  // ---------------------------------------------------------------------
  // Keeping the objects that satisfy a predicate (every event)
  // ---------------------------------------------------------------------

  /** Boolean-mask selection `coll[p(coll)]` of a ragged array by a per-object predicate. */
  function FilterEach<T(!new)>(coll: seq<seq<T>>, p: T -> bool): (r: seq<seq<T>>)
    ensures |r| == |coll|
    ensures forall i {:trigger r[i]} :: 0 <= i < |coll| ==> r[i] == Filter(coll[i], p)
  {
    seq(|coll|, i requires 0 <= i < |coll| => Filter(coll[i], p))
  }

  lemma FilterEachSelectsExactly<T(!new)>(coll: seq<seq<T>>, p: T -> bool)
    ensures forall i {:trigger FilterEach(coll, p)[i]} :: 0 <= i < |coll| ==> SelectsExactly(FilterEach(coll, p)[i], coll[i], p)
  {
    forall i | 0 <= i < |coll| {
      FilterSelectsExactly(coll[i], p);
    }
  }

  // ---------------------------------------------------------------------
  // Keeping the events that pass a boolean mask
  // ---------------------------------------------------------------------

  /** Number of passing events. */
  function CountTrue(mask: seq<bool>): (n: nat)
    ensures n <= |mask|
  {
    if mask == [] then 0
    else CountTrue(mask[..|mask| - 1]) + (if mask[|mask| - 1] then 1 else 0)
  }

  /** Indices of the passing events, in increasing order. */
  function Passing(mask: seq<bool>): (p: seq<nat>)
    ensures |p| == CountTrue(mask)
    ensures forall j :: 0 <= j < |p| ==> p[j] < |mask| && mask[p[j]]
    ensures forall j, k :: 0 <= j < k < |p| ==> p[j] < p[k]
    ensures forall i :: 0 <= i < |mask| && mask[i] ==> i in p
  {
    if mask == [] then []
    else
      var n := |mask| - 1;
      Passing(mask[..n]) + (if mask[n] then [n] else [])
  }

  /** Boolean-mask selection `xs[mask]` along the event axis. */
  function Select<T>(xs: seq<T>, mask: seq<bool>): (r: seq<T>)
    requires |xs| == |mask|
    ensures |r| == CountTrue(mask)
    ensures forall j :: 0 <= j < |r| ==> r[j] == xs[Passing(mask)[j]]
  {
    if xs == [] then []
    else
      var n := |xs| - 1;
      Select(xs[..n], mask[..n]) + (if mask[n] then [xs[n]] else [])
  }

  /** Two ragged arrays have the same number of events and the same per-event lengths. */
  predicate SameShape<A, B>(a: seq<seq<A>>, b: seq<seq<B>>) {
    |a| == |b| && forall i :: 0 <= i < |a| ==> |a[i]| == |b[i]|
  }
}
