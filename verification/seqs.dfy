/** Order-preserving filtering of sequences, the shape shared by Rust's
    `into_iter().filter(..).collect()` and by a loop that pushes the elements it keeps. */
module Seqs {

  /** The indices are strictly increasing, hence distinct. */
  ghost predicate Increasing(idx: seq<nat>) {
    forall a, b :: 0 <= a < b < |idx| ==> idx[a] < idx[b]
  }

  /** `idx` lists, in increasing order, exactly the positions of `xs` whose element satisfies `p`. */
  ghost predicate Selects<T>(xs: seq<T>, p: T -> bool, idx: seq<nat>) {
    && Increasing(idx)
    && (forall k :: 0 <= k < |idx| ==> idx[k] < |xs| && p(xs[idx[k]]))
    && (forall i :: 0 <= i < |xs| && p(xs[i]) ==> i in idx)
  }

  /** The positions of the elements of `xs` kept by `p`, in order. */
  function FilterIndices<T>(xs: seq<T>, p: T -> bool): (idx: seq<nat>)
    ensures Selects(xs, p, idx)
    ensures |idx| <= |xs|
  {
    if xs == [] then []
    else
      var front := FilterIndices(xs[..|xs| - 1], p);
      assert forall i :: 0 <= i < |xs| - 1 ==> xs[..|xs| - 1][i] == xs[i];
      if p(xs[|xs| - 1]) then front + [|xs| - 1] else front
  }

  /** The elements of `xs` kept by `p`, in their original order. */
  function Filter<T>(xs: seq<T>, p: T -> bool): (r: seq<T>)
    ensures |r| <= |xs|
  {
    if xs == [] then []
    else
      var front := Filter(xs[..|xs| - 1], p);
      if p(xs[|xs| - 1]) then front + [xs[|xs| - 1]] else front
  }

  /** The element at result position `k` of `Filter` is the one at the `k`-th kept position. */
  lemma {:induction false} FilterIndexed<T>(xs: seq<T>, p: T -> bool)
    ensures |Filter(xs, p)| == |FilterIndices(xs, p)|
    ensures forall k :: 0 <= k < |Filter(xs, p)| ==> Filter(xs, p)[k] == xs[FilterIndices(xs, p)[k]]
  {
    if xs != [] {
      var front := xs[..|xs| - 1];
      assert forall i :: 0 <= i < |front| ==> front[i] == xs[i];
      FilterIndexed(front, p);
    }
  }

  /** Filtering keeps an element exactly when it occurs in the input and satisfies `p`. */
  lemma FilterMembership<T>(xs: seq<T>, p: T -> bool)
    ensures forall x :: x in Filter(xs, p) <==> x in xs && p(x)
  {
    var r, idx := Filter(xs, p), FilterIndices(xs, p);
    FilterIndexed(xs, p);
    forall x | x in r ensures x in xs && p(x) {
      var k :| 0 <= k < |r| && r[k] == x;
      assert xs[idx[k]] == x;
    }
    forall x | x in xs && p(x) ensures x in r {
      var i :| 0 <= i < |xs| && xs[i] == x;
      assert i in idx;
      var k :| 0 <= k < |idx| && idx[k] == i;
      assert r[k] == x;
    }
  }

  /** When every element satisfies `p`, filtering keeps the whole sequence. */
  lemma {:induction false} FilterAll<T>(xs: seq<T>, p: T -> bool)
    requires forall i :: 0 <= i < |xs| ==> p(xs[i])
    ensures Filter(xs, p) == xs
  {
    if xs != [] {
      var front := xs[..|xs| - 1];
      assert forall i :: 0 <= i < |front| ==> front[i] == xs[i];
      FilterAll(front, p);
      assert front + [xs[|xs| - 1]] == xs;
    }
  }

  /** Filtering a sequence extended by one element extends the result by that element
      exactly when `p` keeps it. */
  lemma FilterSnoc<T>(xs: seq<T>, x: T, p: T -> bool)
    ensures Filter(xs + [x], p) == Filter(xs, p) + (if p(x) then [x] else [])
  {
    assert (xs + [x])[..|xs|] == xs;
  }
}
