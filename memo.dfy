/**
 * `asycMemo`: wraps a function `f` with a cache kept in a private promised
 * store. A call first reads the cache; on the missing-key rejection it runs
 * `f`, stores the result and returns it. Calls are taken one at a time.
 */
module Memo {
  import opened Wrappers
  import opened Store

  /** No element occurs twice in `s`. */
  ghost predicate NoDuplicates<T>(s: seq<T>) {
    forall i, j :: 0 <= i < j < |s| ==> s[i] != s[j]
  }

  /** The distinct elements of `s`. */
  ghost function Elements<T>(s: seq<T>): set<T> {
    set x | x in s
  }

  /** A duplicate-free sequence has as many distinct elements as it is long. */
  lemma {:induction false} DistinctLength<T>(s: seq<T>)
    requires NoDuplicates(s)
    ensures |Elements(s)| == |s|
  {
    if s != [] {
      assert NoDuplicates(s[1..]) by {
        forall i, j | 0 <= i < j < |s[1..]| ensures s[1..][i] != s[1..][j] {
          assert s[1..][i] == s[i + 1] && s[1..][j] == s[j + 1];
        }
      }
      DistinctLength(s[1..]);
      assert Elements(s) == {s[0]} + Elements(s[1..]);
      assert s[0] !in Elements(s[1..]);
    }
  }

  /**
   * If `f` was run on the parameters `invoked`, never twice on one, and on
   * exactly the parameters that were `asked`, then it ran once per distinct
   * parameter asked.
   */
  lemma OncePerDistinctParameter<T>(invoked: seq<T>, asked: seq<T>)
    requires NoDuplicates(invoked)
    requires Elements(invoked) == Elements(asked)
    ensures |invoked| == |Elements(asked)|
  {
    DistinctLength(invoked);
  }

  /** The function returned by `asycMemo(f)`, with the store it closes over. */
  class AsyncMemo<T(==), R> {
    const f: T -> R
    const cache: PromisedStore<T, R>
    /** Every parameter the memoized function was called with, in order. */
    ghost var asked: seq<T>
    /** Every parameter `f` itself was run on, in order. */
    ghost var invoked: seq<T>

    /**
     * The cache holds `f`'s result for exactly the parameters asked so far,
     * and `f` ran once on each of them and on nothing else.
     */
    ghost predicate Valid()
      reads this, cache
    {
      && (forall p :: p in cache.entries ==> cache.entries[p] == f(p))
      && cache.entries.Keys == Elements(asked)
      && Elements(invoked) == Elements(asked)
      && NoDuplicates(invoked)
    }

    /** `asycMemo(f)`: a memoized `f` over a fresh, empty cache. */
    constructor (f: T -> R)
      ensures Valid() && fresh(cache)
      ensures this.f == f && cache.entries == map[]
      ensures asked == [] && invoked == []
    {
      this.f := f;
      cache := new PromisedStore();
      asked := [];
      invoked := [];
    }

    /**
     * One call on `param`: always `f(param)`. A cached parameter is answered
     * from the cache without running `f`; a new one runs `f` once and is
     * cached.
     */
    method Call(param: T) returns (value: R)
      requires Valid()
      modifies this, cache
      ensures Valid()
      ensures value == f(param)
      ensures asked == old(asked) + [param]
      ensures invoked == if param in old(asked) then old(invoked) else old(invoked) + [param]
      ensures cache.entries == old(cache.entries)[param := value]
      ensures |invoked| == |Elements(asked)|
    {
      var got := cache.Get(param);
      if got.Success? {
        value := got.value;
      } else {
        // the missing-key rejection: compute and cache
        value := f(param);
        assert Elements(invoked + [param]) == Elements(invoked) + {param};
        invoked := invoked + [param];
        cache.Set(param, value);
      }
      assert Elements(asked + [param]) == Elements(asked) + {param};
      assert Elements(invoked) == Elements(asked) + {param};
      asked := asked + [param];
      OncePerDistinctParameter(invoked, asked);
    }
  }

  /** Two calls on one parameter give the same value, `f` of it, and run `f` once. */
  method CallTwice<T(==), R>(f: T -> R, param: T) returns (firstValue: R, secondValue: R, ghost runs: seq<T>)
    ensures firstValue == secondValue == f(param)
    ensures runs == [param]
  {
    var memo := new AsyncMemo(f);
    firstValue := memo.Call(param);
    secondValue := memo.Call(param);
    runs := memo.invoked;
  }
}
