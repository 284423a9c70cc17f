/**
 * Get-or-insert registries over sequences of keys: the abstract meaning of
 * the hash-backed tables the profile builder fills (string table, message
 * sets, the locations hash). A key's position in the sequence is its index
 * (string table) or, shifted by the table's id base, its id (message sets).
 */
module Registry {
  import opened Optional

  /**
   * `keys[i]`. `Distinct` quantifies over this term rather than over the
   * sequence index, so its instances are only produced where a proof names
   * a position explicitly.
   */
  ghost function At<K>(keys: seq<K>, i: nat): K
    requires i < |keys|
  {
    keys[i]
  }

  /** No key occurs twice. */
  ghost predicate Distinct<K>(keys: seq<K>) {
    forall i, j | 0 <= i < j < |keys| :: At(keys, i) != At(keys, j)
  }

  /** In a table without duplicates, different positions hold different keys. */
  lemma DistinctAt<K>(keys: seq<K>, i: nat, j: nat)
    requires Distinct(keys) && i < j < |keys|
    ensures keys[i] != keys[j]
  {
    assert At(keys, i) != At(keys, j);
  }

  /** The position of the first occurrence of `k` in `keys`, if any. */
  function Find<K(==)>(keys: seq<K>, k: K): (r: Option<nat>)
    ensures r.None? <==> k !in keys
    ensures r.Some? ==> r.value < |keys| && keys[r.value] == k
    ensures r.Some? ==> forall i | 0 <= i < r.value :: keys[i] != k
  {
    if |keys| == 0 then None
    else if keys[0] == k then Some(0)
    else match Find(keys[1..], k) {
      case None => None
      case Some(i) => Some(i + 1)
    }
  }

  /** A key already present is found at the same position after more keys are appended. */
  lemma FindExtended<K>(keys: seq<K>, keys': seq<K>, k: K)
    requires keys <= keys' && k in keys
    ensures Find(keys', k) == Find(keys, k)
  {
    var i := Find(keys, k).value;
    assert keys'[i] == k;
  }

  /**
   * Get-or-insert: the new key sequence and the position of `k` in it.
   * A key seen before keeps its position and leaves the table as it was;
   * a new key is appended and receives the next position.
   */
  function Intern<K(==)>(keys: seq<K>, k: K): (r: (seq<K>, nat))
    ensures r.1 < |r.0| && r.0[r.1] == k
    ensures keys <= r.0 && |r.0| <= |keys| + 1
    ensures k in keys <==> r.0 == keys
    ensures k !in keys <==> r.1 == |keys|
    ensures k !in keys ==> r.0 == keys + [k]
  {
    match Find(keys, k) {
      case Some(i) => (keys, i)
      case None => (keys + [k], |keys|)
    }
  }

  /** The position Intern hands out is the first occurrence of the key in the new table. */
  lemma InternFinds<K>(keys: seq<K>, k: K)
    ensures Find(Intern(keys, k).0, k) == Some(Intern(keys, k).1)
  {
    if k !in keys {
      assert (keys + [k])[|keys|] == k;
    }
  }

  /** Interning never introduces a duplicate: a table of distinct keys stays one. */
  lemma InternDistinct<K>(keys: seq<K>, k: K)
    ensures Distinct(keys) ==> Distinct(Intern(keys, k).0)
  {
    if Distinct(keys) && k !in keys {
      DistinctAppend(keys, k);
    }
  }

  /** Appending a key that is not present keeps a table of distinct keys distinct. */
  lemma DistinctAppend<K>(keys: seq<K>, k: K)
    requires Distinct(keys) && k !in keys
    ensures Distinct(keys + [k])
  {
    var r := keys + [k];
    forall i, j | 0 <= i < j < |r| ensures At(r, i) != At(r, j) {
      if j < |keys| {
        assert At(keys, i) != At(keys, j);
      } else {
        assert At(r, i) == keys[i];
      }
    }
  }

  /** Interns every key of `ks`, left to right. */
  function InternAll<K(==)>(keys: seq<K>, ks: seq<K>): (r: seq<K>)
    ensures keys <= r && |r| <= |keys| + |ks|
    ensures forall i | 0 <= i < |ks| :: ks[i] in r
    ensures forall k | k in r :: k in keys || k in ks
    decreases |ks|
  {
    if |ks| == 0 then keys
    else
      var front := ks[..|ks| - 1];
      var r := Intern(InternAll(keys, front), ks[|ks| - 1]).0;
      assert forall i | 0 <= i < |ks| - 1 :: ks[i] == front[i];
      r
  }

  /** Interning a whole sequence of keys keeps a table of distinct keys distinct. */
  lemma {:induction false} InternAllDistinct<K>(keys: seq<K>, ks: seq<K>)
    requires Distinct(keys)
    ensures Distinct(InternAll(keys, ks))
    decreases |ks|
  {
    if |ks| > 0 {
      InternAllDistinct(keys, ks[..|ks| - 1]);
      InternDistinct(InternAll(keys, ks[..|ks| - 1]), ks[|ks| - 1]);
    }
  }

  /** Interning keys that are all present already changes nothing. */
  lemma {:induction false} InternAllPresent<K>(keys: seq<K>, ks: seq<K>)
    requires forall i | 0 <= i < |ks| :: ks[i] in keys
    ensures InternAll(keys, ks) == keys
    decreases |ks|
  {
    if |ks| > 0 {
      InternAllPresent(keys, ks[..|ks| - 1]);
    }
  }

  /** Interning the same keys a second time returns the table unchanged. */
  lemma InternAllIdempotent<K>(keys: seq<K>, ks: seq<K>)
    ensures InternAll(InternAll(keys, ks), ks) == InternAll(keys, ks)
  {
    InternAllPresent(InternAll(keys, ks), ks);
  }

  /**
   * Two lookups into one table, one after the other, return the same
   * position exactly when they asked for the same key.
   */
  lemma InternSamePositionIffSameKey<K>(keys: seq<K>, a: K, b: K)
    ensures Intern(Intern(keys, a).0, b).1 == Intern(keys, a).1 <==> a == b
  {
  }
}
