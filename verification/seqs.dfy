/** Order-preserving operations on Swift arrays, modelled as sequences. */
module Seqs {

  /** `sub` can be obtained from `xs` by deleting elements, keeping the order of the rest. */
  ghost predicate IsSubseq<T>(sub: seq<T>, xs: seq<T>)
    decreases |xs|
  {
    if |sub| == 0 then true
    else if |xs| == 0 then false
    else if sub[0] == xs[0] then IsSubseq(sub[1..], xs[1..])
    else IsSubseq(sub, xs[1..])
  }

  /** No element occurs twice. */
  ghost predicate NoDup<T>(xs: seq<T>) {
    forall i, j :: 0 <= i < j < |xs| ==> xs[i] != xs[j]
  }

  /** No element occurs in both sequences. */
  ghost predicate Disjoint<T>(xs: seq<T>, ys: seq<T>) {
    forall x :: x in xs ==> x !in ys
  }

  /** Swift's `xs.filter(p)`: the elements satisfying `p`, each as often as in `xs`, in order. */
  function Filter<T(!new)>(xs: seq<T>, p: T -> bool): (r: seq<T>)
    ensures IsSubseq(r, xs)
    ensures forall x :: multiset(r)[x] == if p(x) then multiset(xs)[x] else 0
    ensures forall i :: 0 <= i < |r| ==> p(r[i])
    ensures |r| <= |xs|
  {
    if |xs| == 0 then []
    else
      var rest := Filter(xs[1..], p);
      assert xs == [xs[0]] + xs[1..];
      if p(xs[0]) then [xs[0]] + rest else rest
  }

  /** Swift's `xs.removeAll { $0 == x }`. */
  function RemoveAll<T(==,!new)>(xs: seq<T>, x: T): (r: seq<T>)
    ensures IsSubseq(r, xs)
    ensures x !in r
    ensures forall y :: y != x ==> multiset(r)[y] == multiset(xs)[y]
    ensures NoDup(xs) ==> NoDup(r)
  {
    var r := Filter(xs, y => y != x);
    FilterNoDup(xs, y => y != x);
    assert multiset(r)[x] == 0;
    r
  }

  /** Every element kept by a filter is an element of its input. */
  lemma SubseqMembers<T>(sub: seq<T>, xs: seq<T>)
    requires IsSubseq(sub, xs)
    ensures forall x :: x in sub ==> x in xs
  {
    forall x | x in sub ensures x in xs {
      assert multiset(sub)[x] > 0;
      SubseqMultiset(sub, xs);
    }
  }

  /** A subsequence never holds more copies of an element than the sequence it came from. */
  lemma {:induction false} SubseqMultiset<T>(sub: seq<T>, xs: seq<T>)
    requires IsSubseq(sub, xs)
    ensures multiset(sub) <= multiset(xs)
    decreases |xs|
  {
    if |sub| == 0 {
    } else if sub[0] == xs[0] {
      SubseqMultiset(sub[1..], xs[1..]);
      assert sub == [sub[0]] + sub[1..];
      assert xs == [xs[0]] + xs[1..];
    } else {
      SubseqMultiset(sub, xs[1..]);
      assert xs == [xs[0]] + xs[1..];
    }
  }

  /** Filtering a duplicate-free sequence leaves it duplicate-free. */
  lemma {:induction false} FilterNoDup<T(!new)>(xs: seq<T>, p: T -> bool)
    ensures NoDup(xs) ==> NoDup(Filter(xs, p))
  {
    if |xs| > 0 && NoDup(xs) {
      assert NoDup(xs[1..]);
      FilterNoDup(xs[1..], p);
      assert xs[0] !in xs[1..];
      assert xs[0] !in Filter(xs[1..], p) by {
        assert multiset(Filter(xs[1..], p))[xs[0]] == 0;
      }
    }
  }

  /** Appending a new element keeps a sequence duplicate-free. */
  lemma NoDupAppend<T>(xs: seq<T>, x: T)
    requires NoDup(xs) && x !in xs
    ensures NoDup(xs + [x])
  {
    var ys := xs + [x];
    forall i, j | 0 <= i < j < |ys| ensures ys[i] != ys[j] {
      if j == |xs| {
        assert ys[i] == xs[i];
      }
    }
  }

  /** A filter that keeps every element is the identity. */
  lemma {:induction false} FilterKeepsAll<T(!new)>(xs: seq<T>, p: T -> bool)
    requires forall i :: 0 <= i < |xs| ==> p(xs[i])
    ensures Filter(xs, p) == xs
  {
    if |xs| > 0 {
      FilterKeepsAll(xs[1..], p);
    }
  }

  /** Filtering twice by the same predicate is filtering once. */
  lemma FilterIdempotent<T(!new)>(xs: seq<T>, p: T -> bool)
    ensures Filter(Filter(xs, p), p) == Filter(xs, p)
  {
    FilterKeepsAll(Filter(xs, p), p);
  }
}
