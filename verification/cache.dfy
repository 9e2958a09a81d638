/**
  The process-local lookup cache of app/core/cache.py: one unbounded
  key-to-value map with `get` and `set`.  The asyncio lock only serialises
  access to the map; every call is modelled as one atomic step.  There is
  no capacity bound, no TTL and no eviction.
 */
module Cache {
  import opened Wrappers

  datatype Cache<K, V> = Cache(entries: map<K, V>)

  /** A freshly constructed cache holds nothing. */
  function Empty<K(==,!new), V>(): (c: Cache<K, V>)
    ensures forall k :: Get(c, k) == None
  {
    Cache(map[])
  }

  /** `Cache.get`: the stored value, or `None` for a key never set. */
  function Get<K(==,!new), V>(c: Cache<K, V>, k: K): (r: Option<V>)
    ensures r.Some? <==> k in c.entries
    ensures r.Some? ==> r.value == c.entries[k]
  {
    if k in c.entries then Some(c.entries[k]) else None
  }

  /** `Cache.set`: afterwards `k` reads back `v`, and every other key reads what it read before. */
  function Set<K(==,!new), V>(c: Cache<K, V>, k: K, v: V): (c': Cache<K, V>)
    ensures Get(c', k) == Some(v)
    ensures forall k' :: k' != k ==> Get(c', k') == Get(c, k')
    ensures c'.entries.Keys == c.entries.Keys + {k}
  {
    Cache(c.entries[k := v])
  }

  /** The cache after a history of `set` calls, applied in order. */
  function Replay<K(==,!new), V>(c: Cache<K, V>, writes: seq<(K, V)>): Cache<K, V>
  {
    if |writes| == 0 then c
    else
      var last := writes[|writes| - 1];
      Set(Replay(c, writes[..|writes| - 1]), last.0, last.1)
  }

  /** The value of the most recent write to `k` in a history, if any. */
  function LastWrite<K(==,!new), V>(writes: seq<(K, V)>, k: K): Option<V>
  {
    if |writes| == 0 then None
    else if writes[|writes| - 1].0 == k then Some(writes[|writes| - 1].1)
    else LastWrite(writes[..|writes| - 1], k)
  }

  /**
    Reading a key after any history of writes gives the last value written
    to it, or what the cache held before the history when it was never
    written: an entry persists until it is overwritten.
   */
  lemma {:induction false} ReplayReadsLastWrite<K(!new), V>(c: Cache<K, V>, writes: seq<(K, V)>, k: K)
    ensures Get(Replay(c, writes), k) == if LastWrite(writes, k).Some? then LastWrite(writes, k) else Get(c, k)
  {
    if |writes| > 0 {
      ReplayReadsLastWrite(c, writes[..|writes| - 1], k);
    }
  }

  /** Starting from an empty cache, a key that no write touched reads `None`. */
  lemma NeverSetReadsNone<K(!new), V>(writes: seq<(K, V)>, k: K)
    requires forall i :: 0 <= i < |writes| ==> writes[i].0 != k
    ensures Get(Replay(Empty(), writes), k) == None
  {
    ReplayReadsLastWrite(Empty(), writes, k);
    NoWriteNoLastWrite(writes, k);
  }

  /** A write of `v` to `k` followed only by writes to other keys leaves `k` reading `v`. */
  lemma WriteSurvivesOtherWrites<K(!new), V>(c: Cache<K, V>, before: seq<(K, V)>, k: K, v: V, after: seq<(K, V)>)
    requires forall i :: 0 <= i < |after| ==> after[i].0 != k
    ensures Get(Replay(c, before + [(k, v)] + after), k) == Some(v)
  {
    var writes := before + [(k, v)] + after;
    ReplayReadsLastWrite(c, writes, k);
    LastWriteSkipsSuffix(before + [(k, v)], after, k);
  }

  lemma {:induction false} NoWriteNoLastWrite<K(!new), V>(writes: seq<(K, V)>, k: K)
    requires forall i :: 0 <= i < |writes| ==> writes[i].0 != k
    ensures LastWrite(writes, k) == None
  {
    if |writes| > 0 {
      NoWriteNoLastWrite(writes[..|writes| - 1], k);
    }
  }

  lemma {:induction false} LastWriteSkipsSuffix<K(!new), V>(prefix: seq<(K, V)>, suffix: seq<(K, V)>, k: K)
    requires forall i :: 0 <= i < |suffix| ==> suffix[i].0 != k
    ensures LastWrite(prefix + suffix, k) == LastWrite(prefix, k)
  {
    if |suffix| > 0 {
      var all := prefix + suffix;
      assert all[..|all| - 1] == prefix + suffix[..|suffix| - 1];
      LastWriteSkipsSuffix(prefix, suffix[..|suffix| - 1], k);
    } else {
      assert prefix + suffix == prefix;
    }
  }
}
