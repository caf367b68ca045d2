/**
  The two array filters the handlers use: `xs.filter(p)` on values and
  `xs.filter((_, i) => i !== index)` on positions.
 */
module Seqs {

  /** `xs.filter(p)`: the elements satisfying `p`, in their original order. */
  function Filter<T>(xs: seq<T>, p: T -> bool): (r: seq<T>)
    ensures |r| <= |xs|
    ensures forall k :: 0 <= k < |r| ==> r[k] in xs && p(r[k])
    ensures forall k :: 0 <= k < |xs| && p(xs[k]) ==> xs[k] in r
  {
    if xs == [] then []
    else (if p(xs[0]) then [xs[0]] else []) + Filter(xs[1..], p)
  }

  /** Filtering a concatenation filters each part and keeps their order. */
  lemma {:induction false} FilterAppend<T>(a: seq<T>, b: seq<T>, p: T -> bool)
    ensures Filter(a + b, p) == Filter(a, p) + Filter(b, p)
  {
    if a != [] {
      assert (a + b)[1..] == a[1..] + b;
      FilterAppend(a[1..], b, p);
    } else {
      assert a + b == b;
    }
  }

  /** A list whose every element passes the test is its own filter. */
  lemma {:induction false} FilterAllPass<T>(xs: seq<T>, p: T -> bool)
    requires forall k :: 0 <= k < |xs| ==> p(xs[k])
    ensures Filter(xs, p) == xs
  {
    if xs != [] {
      FilterAllPass(xs[1..], p);
    }
  }

  /** Filtering is idempotent. */
  lemma FilterIdempotent<T>(xs: seq<T>, p: T -> bool)
    ensures Filter(Filter(xs, p), p) == Filter(xs, p)
  {
    var r := Filter(xs, p);
    assert forall k :: 0 <= k < |r| ==> r[k] in r;
    FilterAllPass(r, p);
  }

  /** Every passing element keeps its number of occurrences; every failing one has none. */
  lemma {:induction false} FilterMultiset<T>(xs: seq<T>, p: T -> bool, x: T)
    ensures multiset(Filter(xs, p))[x] == if p(x) then multiset(xs)[x] else 0
  {
    if xs != [] {
      FilterMultiset(xs[1..], p, x);
      assert xs == [xs[0]] + xs[1..];
    }
  }

  /** The positions kept by `xs.filter((_, i) => i !== index)`, with `xs[0]` at position `from`. */
  function FilterPositions<T>(xs: seq<T>, index: int, from: int): seq<T>
  {
    if xs == [] then []
    else (if from != index then [xs[0]] else []) + FilterPositions(xs[1..], index, from + 1)
  }

  /** A segment that does not contain position `index` is kept whole. */
  lemma {:induction false} FilterPositionsMissIndex<T>(xs: seq<T>, index: int, from: int)
    requires index < from || index >= from + |xs|
    ensures FilterPositions(xs, index, from) == xs
  {
    if xs != [] {
      FilterPositionsMissIndex(xs[1..], index, from + 1);
    }
  }

  /** A segment that contains position `index` loses exactly that element. */
  lemma {:induction false} FilterPositionsHitIndex<T>(xs: seq<T>, index: int, from: int)
    requires from <= index < from + |xs|
    ensures FilterPositions(xs, index, from) == xs[..index - from] + xs[index - from + 1..]
  {
    var rest := xs[1..];
    if from == index {
      FilterPositionsMissIndex(rest, index, from + 1);
      assert FilterPositions(xs, index, from) == FilterPositions(rest, index, from + 1);
    } else {
      FilterPositionsHitIndex(rest, index, from + 1);
      assert FilterPositions(xs, index, from) == [xs[0]] + FilterPositions(rest, index, from + 1);
      assert xs[..index - from] == [xs[0]] + rest[..index - from - 1];
      assert xs[index - from + 1..] == rest[index - from..];
    }
  }

  /** `xs.filter((_, i) => i !== index)`: drops position `index`, if there is one. */
  function RemoveAt<T>(xs: seq<T>, index: int): (r: seq<T>)
    ensures 0 <= index < |xs| ==> r == xs[..index] + xs[index + 1..]
    ensures !(0 <= index < |xs|) ==> r == xs
  {
    if 0 <= index < |xs| then
      FilterPositionsHitIndex(xs, index, 0);
      FilterPositions(xs, index, 0)
    else
      FilterPositionsMissIndex(xs, index, 0);
      FilterPositions(xs, index, 0)
  }

  /** Removing position `i` shortens the list by one exactly when `i` is a position of it. */
  lemma RemoveAtLength<T>(xs: seq<T>, index: int)
    ensures |RemoveAt(xs, index)| == if 0 <= index < |xs| then |xs| - 1 else |xs|
  {
  }

  /** Removing the element just appended gives the list back. */
  lemma RemoveLastAppended<T>(xs: seq<T>, x: T)
    ensures RemoveAt(xs + [x], |xs|) == xs
  {
    assert (xs + [x])[..|xs|] == xs;
  }
}
