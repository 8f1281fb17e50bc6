/**
 * `lazyFilter` and `lazyMap`: generator wrappers that make one pass over
 * the underlying generator. One such pass over a finite generator is
 * modelled by the sequence it yields.
 */
module Lazy {

  /** The elements of `gen` that pass `filterFn`, in the order `gen` yields them. */
  function LazyFilter<T>(gen: seq<T>, filterFn: T -> bool): (r: seq<T>)
    ensures |r| <= |gen|
    ensures forall i :: 0 <= i < |r| ==> filterFn(r[i])
    ensures multiset(r) <= multiset(gen)
    ensures forall i :: 0 <= i < |gen| && filterFn(gen[i]) ==> multiset(r)[gen[i]] == multiset(gen)[gen[i]]
  {
    if gen == [] then []
    else
      assert gen == [gen[0]] + gen[1..];
      (if filterFn(gen[0]) then [gen[0]] else []) + LazyFilter(gen[1..], filterFn)
  }

  /** Filtering is one front-to-back pass: the output for `a + b` is the output for `a`, then for `b`. */
  lemma {:induction false} LazyFilterAppend<T>(a: seq<T>, b: seq<T>, filterFn: T -> bool)
    ensures LazyFilter(a + b, filterFn) == LazyFilter(a, filterFn) + LazyFilter(b, filterFn)
  {
    if a != [] {
      assert (a + b)[1..] == a[1..] + b;
      LazyFilterAppend(a[1..], b, filterFn);
    } else {
      assert a + b == b;
    }
  }

  /** `mapFn` applied to each element of `gen`, in order. */
  function LazyMap<T>(gen: seq<T>, mapFn: T -> T): (r: seq<T>)
    ensures |r| == |gen|
    ensures forall i :: 0 <= i < |gen| ==> r[i] == mapFn(gen[i])
  {
    if gen == [] then [] else [mapFn(gen[0])] + LazyMap(gen[1..], mapFn)
  }
}
