/**
 * The promised key-value store of `makePromisedStore` and the batch read
 * `getAll` built on it. Every operation settles at once; the promise is
 * modelled as the `Result` it settles to.
 */
module Store {
  import opened Wrappers

  /** The sentinel every missing-key rejection carries. */
  const MissingKey: string := "___MISSING___"

  /** What `get` settles to on a store whose map is `m`. */
  function Lookup<K, V>(m: map<K, V>, key: K): (r: Result<V, string>)
    ensures r.Success? <==> key in m
    ensures r.Success? ==> r.value == m[key]
    ensures r.Failure? ==> r.error == MissingKey
  {
    if key in m then Success(m[key]) else Failure(MissingKey)
  }

  /** A store; its map is private to it and changed only by its own methods. */
  class PromisedStore<K(==), V> {
    var entries: map<K, V>

    /** `makePromisedStore`: a store over a fresh, empty map. */
    constructor ()
      ensures entries == map[]
    {
      entries := map[];
    }

    /** Resolves with the stored value, or rejects with the sentinel when the key is absent. */
    method Get(key: K) returns (r: Result<V, string>)
      ensures r.Success? <==> key in entries
      ensures r.Success? ==> r.value == entries[key]
      ensures r.Failure? ==> r.error == MissingKey
      ensures r == Lookup(entries, key)
    {
      if key in entries {
        r := Success(entries[key]);
      } else {
        r := Failure(MissingKey);
      }
    }

    /** Inserts or overwrites the entry for `key`; always resolves. */
    method Set(key: K, value: V)
      modifies this
      ensures entries == old(entries)[key := value]
    {
      entries := entries[key := value];
    }

    /** Removes the entry for `key`; rejects with the sentinel, changing nothing, if there was none. */
    method Delete(key: K) returns (r: Result<(), string>)
      modifies this
      ensures r.Success? <==> key in old(entries)
      ensures r.Failure? ==> r.error == MissingKey
      ensures entries == old(entries) - {key}
    {
      if key in entries {
        entries := entries - {key};
        r := Success(());
      } else {
        r := Failure(MissingKey);
      }
    }
  }

  /** After `set(key, v)`, `get(key)` resolves with `v` and every other key reads as before. */
  lemma LookupAfterSet<K, V>(m: map<K, V>, key: K, v: V, other: K)
    ensures Lookup(m[key := v], key) == Success(v)
    ensures other != key ==> Lookup(m[key := v], other) == Lookup(m, other)
  {
  }

  /** A second `set` on the same key overwrites the first. */
  lemma SetOverwrites<K, V>(m: map<K, V>, key: K, v1: V, v2: V)
    ensures m[key := v1][key := v2] == m[key := v2]
  {
  }

  /** After `delete(key)`, `get(key)` rejects and every other key reads as before. */
  lemma LookupAfterDelete<K, V>(m: map<K, V>, key: K, other: K)
    ensures Lookup(m - {key}, key) == Failure(MissingKey)
    ensures other != key ==> Lookup(m - {key}, other) == Lookup(m, other)
  {
  }

  /**
   * `Promise.all`: resolves with every value, in input order, when every
   * promise resolves; otherwise rejects with the reason of the first
   * rejected promise and no partial result.
   */
  function All<T, E>(rs: seq<Result<T, E>>): (r: Result<seq<T>, E>)
    ensures r.Success? <==> forall i :: 0 <= i < |rs| ==> rs[i].Success?
    ensures r.Success? ==> |r.value| == |rs| && forall i :: 0 <= i < |rs| ==> r.value[i] == rs[i].value
    ensures r.Failure? ==> exists i :: 0 <= i < |rs| && rs[i] == Failure(r.error) && forall j :: 0 <= j < i ==> rs[j].Success?
  {
    if rs == [] then Success([])
    else match rs[0]
      case Failure(e) => Failure(e)
      case Success(v) =>
        match All(rs[1..])
        case Failure(e) =>
          assert exists i :: 0 <= i < |rs| && rs[i] == Failure(e) && forall j :: 0 <= j < i ==> rs[j].Success? by {
            var i :| 0 <= i < |rs| - 1 && rs[1..][i] == Failure(e) && forall j :: 0 <= j < i ==> rs[1..][j].Success?;
            assert rs[i + 1] == Failure(e);
            assert forall j :: 0 <= j < i + 1 ==> rs[j].Success? by {
              forall j | 0 <= j < i + 1 ensures rs[j].Success? {
                if j > 0 { assert rs[j] == rs[1..][j - 1]; }
              }
            }
          }
          Failure(e)
        case Success(vs) => Success([v] + vs)
  }

  /**
   * `getAll`: one `get` per key, collected by `Promise.all`. Resolves with
   * the stored value of each key, in key order (a repeated key is read once
   * per occurrence), exactly when every key is present; otherwise rejects
   * with the sentinel.
   */
  function GetAll<K, V>(store: PromisedStore<K, V>, keys: seq<K>): (r: Result<seq<V>, string>)
    reads store
    ensures r.Success? <==> forall i :: 0 <= i < |keys| ==> keys[i] in store.entries
    ensures r.Success? ==> |r.value| == |keys| && forall i :: 0 <= i < |keys| ==> r.value[i] == store.entries[keys[i]]
    ensures r.Failure? ==> r.error == MissingKey
  {
    var m := store.entries;
    var gets := seq(|keys|, i requires 0 <= i < |keys| => Lookup(m, keys[i]));
    assert forall i :: 0 <= i < |keys| ==> gets[i] == Lookup(m, keys[i]);
    All(gets)
  }
}
