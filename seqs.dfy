/** Sequence helpers shared by the components: JavaScript's `Array.prototype.filter`
    and the "order-preserving subsequence" relation used to state what it keeps. */
module Seqs {

  /** `a` can be obtained from `b` by deleting elements, keeping the order of the rest. */
  predicate IsSubsequence<T(==)>(a: seq<T>, b: seq<T>)
    decreases |b|
  {
    a == [] ||
    (b != [] &&
     ((a[0] == b[0] && IsSubsequence(a[1..], b[1..])) || IsSubsequence(a, b[1..])))
  }

  /** A subsequence is no longer than the sequence and only holds its elements. */
  lemma {:induction false} SubsequenceBounds<T>(a: seq<T>, b: seq<T>)
    requires IsSubsequence(a, b)
    ensures |a| <= |b|
    ensures forall x | x in a :: x in b
    decreases |b|
  {
    if a != [] {
      if a[0] == b[0] && IsSubsequence(a[1..], b[1..]) {
        SubsequenceBounds(a[1..], b[1..]);
        assert forall x | x in a :: x == a[0] || x in a[1..];
      } else {
        SubsequenceBounds(a, b[1..]);
      }
    }
  }

  /** JavaScript's `xs.filter(keep)`: the elements `keep` accepts, in their original order. */
  function Filter<T>(xs: seq<T>, keep: T -> bool): (r: seq<T>)
    ensures |r| <= |xs|
    ensures forall x | x in r :: x in xs && keep(x)
  {
    if xs == [] then []
    else if keep(xs[0]) then [xs[0]] + Filter(xs[1..], keep)
    else Filter(xs[1..], keep)
  }

  /** Nothing `keep` accepts is dropped. */
  lemma {:induction false} FilterComplete<T>(xs: seq<T>, keep: T -> bool, x: T)
    requires x in xs && keep(x)
    ensures x in Filter(xs, keep)
  {
    if xs[0] != x {
      FilterComplete(xs[1..], keep, x);
    }
  }

  /** `x` is kept exactly when it is in `xs` and `keep` accepts it. */
  lemma FilterMembership<T>(xs: seq<T>, keep: T -> bool, x: T)
    ensures x in Filter(xs, keep) <==> x in xs && keep(x)
  {
    if x in xs && keep(x) {
      FilterComplete(xs, keep, x);
    }
  }

  /** The filtered sequence keeps the original order. */
  lemma {:induction false} FilterIsSubsequence<T>(xs: seq<T>, keep: T -> bool)
    ensures IsSubsequence(Filter(xs, keep), xs)
  {
    if xs != [] {
      FilterIsSubsequence(xs[1..], keep);
    }
  }

  /** A filter that accepts everything returns the whole sequence. */
  lemma {:induction false} FilterAll<T>(xs: seq<T>, keep: T -> bool)
    requires forall x | x in xs :: keep(x)
    ensures Filter(xs, keep) == xs
  {
    if xs != [] {
      FilterAll(xs[1..], keep);
    }
  }

  /** A filter that accepts nothing returns the empty sequence. */
  lemma {:induction false} FilterNone<T>(xs: seq<T>, keep: T -> bool)
    requires forall x | x in xs :: !keep(x)
    ensures Filter(xs, keep) == []
  {
    if xs != [] {
      FilterNone(xs[1..], keep);
    }
  }

  /** A weaker test keeps more: when every element `strict` accepts is also
      accepted by `loose`, the stricter result is a subsequence of the looser one. */
  lemma {:induction false} FilterMonotone<T>(xs: seq<T>, strict: T -> bool, loose: T -> bool)
    requires forall x | x in xs :: strict(x) ==> loose(x)
    ensures IsSubsequence(Filter(xs, strict), Filter(xs, loose))
  {
    if xs != [] {
      FilterMonotone(xs[1..], strict, loose);
      if strict(xs[0]) {
        assert Filter(xs, strict) == [xs[0]] + Filter(xs[1..], strict);
        assert Filter(xs, loose) == [xs[0]] + Filter(xs[1..], loose);
      } else if loose(xs[0]) {
        var l := Filter(xs, loose);
        assert l == [xs[0]] + Filter(xs[1..], loose);
        assert l[1..] == Filter(xs[1..], loose);
      }
    }
  }

  /** Two tests that agree on every element select the same elements. */
  lemma {:induction false} FilterAgrees<T>(xs: seq<T>, k1: T -> bool, k2: T -> bool)
    requires forall x | x in xs :: k1(x) == k2(x)
    ensures Filter(xs, k1) == Filter(xs, k2)
  {
    if xs != [] {
      FilterAgrees(xs[1..], k1, k2);
    }
  }

  /** The filter keeps every accepted element as often as it occurs, and no other element. */
  lemma {:induction false} FilterMultiplicity<T>(xs: seq<T>, keep: T -> bool, x: T)
    ensures multiset(Filter(xs, keep))[x] == if keep(x) then multiset(xs)[x] else 0
  {
    if xs != [] {
      FilterMultiplicity(xs[1..], keep, x);
      assert xs == [xs[0]] + xs[1..];
    }
  }

  /** How many elements `keep` accepts, counted one by one (a reference for `filter(...).length`). */
  function CountIf<T>(xs: seq<T>, keep: T -> bool): nat
  {
    if xs == [] then 0 else (if keep(xs[0]) then 1 else 0) + CountIf(xs[1..], keep)
  }

  /** `xs.filter(keep).length` counts the accepted elements. */
  lemma {:induction false} FilterLength<T>(xs: seq<T>, keep: T -> bool)
    ensures |Filter(xs, keep)| == CountIf(xs, keep)
  {
    if xs != [] {
      FilterLength(xs[1..], keep);
    }
  }
}
