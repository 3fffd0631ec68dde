/**
 * Filtering and counting over sequences, shared by the modules whose source
 * filters rows (`Array.prototype.filter` and the store's `.eq`/`.in`
 * queries) or counts characters.
 */
module Seqs {
  /** How often `x` occurs in `xs`. */
  function Occurrences<T(==)>(xs: seq<T>, x: T): nat {
    if xs == [] then 0 else (if xs[0] == x then 1 else 0) + Occurrences(xs[1..], x)
  }

  lemma OccurrencesCons<T(!new)>(h: T, xs: seq<T>)
    ensures forall x :: Occurrences([h] + xs, x) == (if h == x then 1 else 0) + Occurrences(xs, x)
  {
    assert ([h] + xs)[1..] == xs;
  }

  /** The elements of `xs` that satisfy `p`, in their order. */
  function Filter<T>(xs: seq<T>, p: T -> bool): (r: seq<T>)
    ensures |r| <= |xs|
    ensures forall k :: 0 <= k < |r| ==> p(r[k])
    ensures (forall k :: 0 <= k < |xs| ==> !p(xs[k])) ==> r == []
  {
    if xs == [] then []
    else
      assert forall k :: 0 <= k < |xs[1..]| ==> xs[1..][k] == xs[k + 1];
      (if p(xs[0]) then [xs[0]] else []) + Filter(xs[1..], p)
  }

  /** Every satisfying element is kept as often as it occurs, and nothing else is. */
  lemma {:induction false} FilterKeepsAll<T(!new)>(xs: seq<T>, p: T -> bool)
    ensures forall x :: Occurrences(Filter(xs, p), x) == if p(x) then Occurrences(xs, x) else 0
  {
    if xs != [] {
      var rest := Filter(xs[1..], p);
      FilterKeepsAll(xs[1..], p);
      if p(xs[0]) {
        OccurrencesCons(xs[0], rest);
      } else {
        assert Filter(xs, p) == rest;
      }
    }
  }

  /** Exactly one position satisfies `p`: its element is all that is kept. */
  lemma {:induction false} FilterSingle<T(!new)>(xs: seq<T>, p: T -> bool, k: nat)
    requires k < |xs| && p(xs[k])
    requires forall j :: 0 <= j < |xs| && j != k ==> !p(xs[j])
    ensures Filter(xs, p) == [xs[k]]
  {
    assert forall j :: 0 <= j < |xs[1..]| ==> xs[1..][j] == xs[j + 1];
    if k > 0 {
      FilterSingle(xs[1..], p, k - 1);
    }
  }
}
