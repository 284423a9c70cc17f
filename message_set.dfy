/**
 * A deduplicating registry of pprof messages (the builder's MessageSet):
 * each new key gets the next id of a sequence starting at `base`, and the
 * messages are kept in first-registration order.
 */
module MessageSets {
  import opened Optional
  import Registry

  /**
   * `keys[i]` is the key under which `messages[i]` was registered; since the
   * id sequence advances only on a new key, that message got id
   * `base + i`. The source's get-or-insert `fetch(key) { |id, ...| ... }`
   * is `Lookup`, followed on a miss by building the message with
   * `NextId()` and `Insert`ing it.
   */
  datatype MessageSet<K(==), M> = MessageSet(base: nat, keys: seq<K>, messages: seq<M>) {

    ghost predicate Valid() {
      |messages| == |keys|
    }

    /** The id the sequence hands out next. */
    function NextId(): nat {
      base + |keys|
    }

    /** The message first registered under `k`, if any. */
    function Lookup(k: K): (r: Option<M>)
      requires Valid()
      ensures r.Some? <==> k in keys
      ensures forall i | 0 <= i < |keys| && keys[i] == k && (forall j | 0 <= j < i :: keys[j] != k) ::
                r == Some(messages[i])
    {
      match Registry.Find(keys, k)
      case None => None
      case Some(i) =>
        Some(messages[i])
    }

    /** Registers `m` under the new key `k`. */
    function Insert(k: K, m: M): (r: MessageSet<K, M>)
      requires Valid() && k !in keys
      ensures r.Valid() && r.base == base
      ensures r.keys == keys + [k] && r.messages == messages + [m]
      ensures r.Lookup(k) == Some(m)
    {
      var r := MessageSet(base, keys + [k], messages + [m]);
      assert r.keys[|keys|] == k;
      r
    }
  }

  /** `MessageSet.new(base)`: an empty set whose first id is `base`. */
  function NewMessageSet<K(==), M>(base: nat): (r: MessageSet<K, M>)
    ensures r.Valid() && r.base == base && r.keys == [] && r.messages == []
  {
    MessageSet(base, [], [])
  }
}
