/** A capped cache whose entries expire (src/wahabot/core/cache.py). */
module TtlCaches {
  import opened Optional
  import opened OrderedDict

  datatype Entry<V> = Entry(at: real, value: V)

  /** `get`: the live value, dropping an expired entry. */
  function Got<K(!new), V>(d: Dict<K, Entry<V>>, key: K, now: real, ttl: real): (Dict<K, Entry<V>>, Option<V>)
    requires d.Valid()
  {
    if key !in d.vals then (d, None)
    else if now - d.vals[key].at > ttl then (d.Remove(key), None)
    else (d, Some(d.vals[key].value))
  }

  /** `put`: the oldest entries go until there is room for one more, then the entry. */
  function Putted<K(!new), V>(d: Dict<K, Entry<V>>, key: K, value: V, now: real, cap: nat): Dict<K, Entry<V>>
    requires d.Valid() && cap > 0
  {
    TrimmedIsPart(d, cap - 1);
    Trimmed(d, cap - 1).Put(key, Entry(now, value))
  }

  class TtlCache<K(==,!new), V> {
    const ttl: real
    const cap: nat
    var entries: Dict<K, Entry<V>>

    ghost predicate Valid()
      reads this
    {
      entries.Valid() && cap > 0 && |entries.keys| <= cap
    }

    constructor (ttl: real, cap: nat)
      requires cap > 0
      ensures Valid() && entries == Empty() && this.ttl == ttl && this.cap == cap
    {
      this.ttl, this.cap := ttl, cap;
      entries := Empty();
    }

    method Get(key: K, now: real) returns (value: Option<V>)
      requires Valid()
      modifies this`entries
      ensures Valid() && (entries, value) == Got(old(entries), key, now, ttl)
    {
      if key !in entries.vals {
        return None;
      }
      var entry := entries.vals[key];
      if now - entry.at > ttl {
        entries := entries.Remove(key);
        return None;
      }
      value := Some(entry.value);
    }

    method Put(key: K, value: V, now: real)
      requires Valid()
      modifies this`entries
      ensures Valid() && entries == Putted(old(entries), key, value, now, cap)
    {
      ghost var was := entries;
      while |entries.keys| >= cap
        invariant entries.Valid() && Trimmed(entries, cap - 1) == Trimmed(was, cap - 1)
        decreases |entries.keys|
      {
        entries := entries.Remove(entries.Oldest());
      }
      entries := entries.Put(key, Entry(now, value));
    }

    method Drop(key: K)
      requires Valid()
      modifies this`entries
      ensures Valid() && entries == old(entries).Remove(key)
    {
      entries := entries.Remove(key);
    }
  }
}
