/**
 * The two array operations of JavaScript that the bookstore leans on everywhere:
 * `Array.prototype.filter` (keep, in order, the elements a callback accepts) and
 * `Array.prototype.findIndex` / `find` (the first element a callback accepts).
 */
module Seqs {

  /** `s.filter(p)`: the elements of `s` that satisfy `p`, in their original order. */
  function Filter<T(!new)>(s: seq<T>, p: T -> bool): (r: seq<T>)
    ensures |r| <= |s|
    ensures forall x :: x in r <==> x in s && p(x)
    decreases |s|
  {
    if s == [] then []
    else (if p(s[0]) then [s[0]] else []) + Filter(s[1..], p)
  }

  /** `s.findIndex(p)`: the first index whose element satisfies `p`, or -1. */
  function FirstIndex<T>(s: seq<T>, p: T -> bool): (k: int)
    ensures -1 <= k < |s|
    ensures k == -1 <==> forall i :: 0 <= i < |s| ==> !p(s[i])
    ensures 0 <= k ==> p(s[k]) && forall i :: 0 <= i < k ==> !p(s[i])
    decreases |s|
  {
    if s == [] then -1
    else if p(s[0]) then 0
    else
      var k := FirstIndex(s[1..], p);
      if k == -1 then -1 else k + 1
  }

  /** Filtering a concatenation filters each part: the filter keeps the original order. */
  lemma {:induction false} FilterAppend<T(!new)>(a: seq<T>, b: seq<T>, p: T -> bool)
    ensures Filter(a + b, p) == Filter(a, p) + Filter(b, p)
    decreases |a|
  {
    if a == [] {
      assert a + b == b;
    } else {
      assert (a + b)[1..] == a[1..] + b;
      FilterAppend(a[1..], b, p);
    }
  }

  /** The positions of `s` whose element satisfies `p`. */
  function PassingIndices<T>(s: seq<T>, p: T -> bool): (r: set<int>)
    ensures forall j :: j in r <==> 0 <= j < |s| && p(s[j])
  {
    set j | 0 <= j < |s| && p(s[j])
  }

  /** Appending one element adds its position when it passes, and nothing otherwise. */
  lemma PassingIndicesSnoc<T>(init: seq<T>, x: T, p: T -> bool)
    ensures |PassingIndices(init + [x], p)| == |PassingIndices(init, p)| + (if p(x) then 1 else 0)
  {
    var s, last := init + [x], |init|;
    assert forall j :: 0 <= j < |init| ==> s[j] == init[j];
    assert s[last] == x;
    if p(x) {
      assert PassingIndices(s, p) == PassingIndices(init, p) + {last};
      assert last !in PassingIndices(init, p);
    } else {
      assert PassingIndices(s, p) == PassingIndices(init, p);
    }
  }

  /** A filter keeps as many elements as there are positions whose element passes. */
  lemma {:induction false} FilterCount<T(!new)>(s: seq<T>, p: T -> bool)
    ensures |Filter(s, p)| == |PassingIndices(s, p)|
    decreases |s|
  {
    if s == [] {
      assert PassingIndices(s, p) == {};
    } else {
      var init, x := s[..|s| - 1], s[|s| - 1];
      assert s == init + [x];
      FilterCount(init, p);
      FilterAppend(init, [x], p);
      assert |Filter([x], p)| == if p(x) then 1 else 0 by {
        assert [x][1..] == [];
      }
      PassingIndicesSnoc(init, x, p);
    }
  }

  /** Two filters in a row are one filter by the conjunction of their predicates. */
  lemma {:induction false} FilterCompose<T(!new)>(s: seq<T>, p: T -> bool, q: T -> bool, pq: T -> bool)
    requires forall x :: pq(x) == (p(x) && q(x))
    ensures Filter(Filter(s, p), q) == Filter(s, pq)
    decreases |s|
  {
    if s != [] {
      FilterCompose(s[1..], p, q, pq);
      var head := if p(s[0]) then [s[0]] else [];
      FilterAppend(head, Filter(s[1..], p), q);
    }
  }

  /** A filter whose predicate holds of every element keeps the whole sequence. */
  lemma {:induction false} FilterKeepsAll<T(!new)>(s: seq<T>, p: T -> bool)
    requires forall i :: 0 <= i < |s| ==> p(s[i])
    ensures Filter(s, p) == s
    decreases |s|
  {
    if s != [] {
      FilterKeepsAll(s[1..], p);
    }
  }

  /** Filters with the same verdict on every element give the same result. */
  lemma {:induction false} FilterCongruent<T(!new)>(s: seq<T>, p: T -> bool, q: T -> bool)
    requires forall i :: 0 <= i < |s| ==> p(s[i]) == q(s[i])
    ensures Filter(s, p) == Filter(s, q)
    decreases |s|
  {
    if s != [] {
      FilterCongruent(s[1..], p, q);
    }
  }

  /** Each value occurs in the filtered sequence exactly as often as in the input when it passes, else never. */
  lemma {:induction false} FilterMultiplicity<T(!new)>(s: seq<T>, p: T -> bool, x: T)
    ensures multiset(Filter(s, p))[x] == if p(x) then multiset(s)[x] else 0
    decreases |s|
  {
    if s != [] {
      FilterMultiplicity(s[1..], p, x);
      var head := if p(s[0]) then [s[0]] else [];
      assert s == [s[0]] + s[1..];
      assert multiset(Filter(s, p)) == multiset(head) + multiset(Filter(s[1..], p));
      assert multiset(s) == multiset([s[0]]) + multiset(s[1..]);
    }
  }
}
