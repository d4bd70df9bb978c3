/**
 * The "remember forever" key-value cache the membership checks memoise into:
 * a value is computed on the first request for its key and returned from the
 * store on every later request. There is no expiry and no invalidation.
 */
module KeyValueCache {

  /** What a remember-forever request for `key` returns, `computed` being what the producer computes: what the store holds under `key` afterwards. */
  function Recall<V>(store: map<string, V>, key: string, computed: V): (v: V)
    ensures v == Retain(store, key, computed)[key]
  {
    if key in store then store[key] else computed
  }

  /**
   * The store after a remember-forever request for `key`: the key is added
   * and nothing that was stored changes; a missing key gets `computed`.
   */
  function Retain<V>(store: map<string, V>, key: string, computed: V): (after: map<string, V>)
    ensures after.Keys == store.Keys + {key}
    ensures forall k :: k in store ==> after[k] == store[k]
    ensures key !in store ==> after[key] == computed
  {
    if key in store then store else store[key := computed]
  }

  /**
   * A second request for a key returns what the first one returned, leaves
   * the store as the first one left it, and does not depend on its producer.
   */
  lemma RememberAgain<V>(store: map<string, V>, key: string, first: V, second: V)
    ensures Recall(Retain(store, key, first), key, second) == Recall(store, key, first)
    ensures Retain(Retain(store, key, first), key, second) == Retain(store, key, first)
  {
  }

  class Cache<V> {
    var store: map<string, V>

    constructor ()
      ensures store == map[]
    {
      store := map[];
    }

    /**
     * Returns the stored value for `key` if there is one; otherwise runs the
     * producer, stores its value under `key` and returns it.
     */
    method RememberForever(key: string, producer: () -> V) returns (v: V)
      modifies this
      ensures key in old(store) ==> v == old(store)[key] && store == old(store)
      ensures key !in old(store) ==> v == producer() && store == old(store)[key := v]
      ensures v == Recall(old(store), key, producer()) && store == Retain(old(store), key, producer())
    {
      if key in store {
        v := store[key];
      } else {
        v := producer();
        store := store[key := v];
      }
    }

    /** Stores `v` under `key`, replacing what was there. */
    method Forever(key: string, v: V)
      modifies this
      ensures store == old(store)[key := v]
    {
      store := store[key := v];
    }
  }
}
