/** Order-preserving filtering of sequences, the model of JavaScript's
    `Array.prototype.filter`, with the facts both pages rely on: the kept
    elements are exactly those satisfying the predicate, a filter and its
    complement split the input, and filtering distributes over
    concatenation (so the input order is kept). */
module Seqs {

  /** The elements of `s` satisfying `p`, in their original order. */
  function Filter<T>(s: seq<T>, p: T -> bool): (r: seq<T>)
    ensures |r| <= |s|
    ensures forall k :: 0 <= k < |r| ==> p(r[k])
  {
    if s == [] then []
    else if p(s[0]) then [s[0]] + Filter(s[1..], p)
    else Filter(s[1..], p)
  }

  /** The complement of a predicate: `x => !p(x)`. */
  function Not<T>(p: T -> bool): T -> bool {
    x => !p(x)
  }

  /** An element is kept iff it occurs in the input and satisfies `p`. */
  lemma {:induction false} FilterMembership<T>(s: seq<T>, p: T -> bool, x: T)
    ensures x in Filter(s, p) <==> x in s && p(x)
  {
    if s != [] {
      FilterMembership(s[1..], p, x);
      assert s == [s[0]] + s[1..];
    }
  }

  /** Filtering distributes over concatenation: the kept elements of `a`
      all come before the kept elements of `b`, so order is preserved. */
  lemma {:induction false} FilterConcat<T>(a: seq<T>, b: seq<T>, p: T -> bool)
    ensures Filter(a + b, p) == Filter(a, p) + Filter(b, p)
  {
    if a == [] {
      assert a + b == b;
    } else {
      assert (a + b)[0] == a[0];
      assert (a + b)[1..] == a[1..] + b;
      FilterConcat(a[1..], b, p);
    }
  }

  /** A filter and its complement split the input: together they hold every
      element exactly as often as the input does. */
  lemma {:induction false} FilterPartition<T>(s: seq<T>, p: T -> bool)
    ensures |Filter(s, p)| + |Filter(s, Not(p))| == |s|
    ensures multiset(Filter(s, p)) + multiset(Filter(s, Not(p))) == multiset(s)
  {
    if s != [] {
      FilterPartition(s[1..], p);
      assert s == [s[0]] + s[1..];
      assert Not(p)(s[0]) == !p(s[0]);
    }
  }

  /** A filter keeps nothing iff no element satisfies the predicate. */
  lemma {:induction false} FilterEmpty<T>(s: seq<T>, p: T -> bool)
    ensures Filter(s, p) == [] <==> forall k :: 0 <= k < |s| ==> !p(s[k])
  {
    if s != [] {
      FilterEmpty(s[1..], p);
      assert forall k :: 1 <= k < |s| ==> s[k] == s[1..][k - 1];
    }
  }

  /** `f` applied to each element, the results joined in order. */
  function FlatMap<T, U>(xs: seq<T>, f: T -> seq<U>): seq<U> {
    if xs == [] then [] else f(xs[0]) + FlatMap(xs[1..], f)
  }

  /** With `n` outputs per element, there are `n` times as many outputs. */
  lemma {:induction false} FlatMapLength<T, U>(xs: seq<T>, f: T -> seq<U>, n: nat)
    requires forall x :: |f(x)| == n
    ensures |FlatMap(xs, f)| == n * |xs|
  {
    if xs != [] {
      FlatMapLength(xs[1..], f, n);
    }
  }

  /** With `n` outputs per element, output `n i + k` is output `k` of
      element `i`. */
  lemma {:induction false} FlatMapAt<T, U>(xs: seq<T>, f: T -> seq<U>, n: nat, i: nat, k: nat)
    requires forall x :: |f(x)| == n
    requires i < |xs| && k < n
    ensures n * i + k < |FlatMap(xs, f)| && FlatMap(xs, f)[n * i + k] == f(xs[i])[k]
  {
    FlatMapLength(xs, f, n);
    if i > 0 {
      FlatMapAt(xs[1..], f, n, i - 1, k);
      assert n * i + k == n + (n * (i - 1) + k);
    }
  }

  /** Mapping distributes over concatenation. */
  lemma {:induction false} FlatMapConcat<T, U>(a: seq<T>, b: seq<T>, f: T -> seq<U>)
    ensures FlatMap(a + b, f) == FlatMap(a, f) + FlatMap(b, f)
  {
    if a == [] {
      assert a + b == b;
    } else {
      assert (a + b)[0] == a[0];
      assert (a + b)[1..] == a[1..] + b;
      FlatMapConcat(a[1..], b, f);
    }
  }

  /** Filtering depends only on which elements the predicate keeps. */
  lemma {:induction false} FilterSameKept<T>(s: seq<T>, p: T -> bool, q: T -> bool)
    requires forall k :: 0 <= k < |s| ==> p(s[k]) == q(s[k])
    ensures Filter(s, p) == Filter(s, q)
  {
    if s != [] {
      assert forall k :: 0 <= k < |s| - 1 ==> s[1..][k] == s[k + 1];
      FilterSameKept(s[1..], p, q);
    }
  }
}
