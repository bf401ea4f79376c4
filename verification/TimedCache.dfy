/** src/cache.rs: a map whose entries stop being served once they are `ttl` old. */
module TimedCacheModel {
  import opened Prelude

  datatype TimedValue<+V> = TimedValue(value: V, insertedAt: int)

  type Entries<K(==), V> = map<K, TimedValue<V>>

  /** `Instant::elapsed` saturates at zero. */
  function Elapsed(insertedAt: int, now: int): nat {
    if now < insertedAt then 0 else now - insertedAt
  }

  predicate Live<V>(tv: TimedValue<V>, ttl: nat, now: int) {
    Elapsed(tv.insertedAt, now) < ttl
  }

  function LookUp<K(==), V>(entries: Entries<K, V>, ttl: nat, now: int, key: K): Option<V> {
    if key in entries && Live(entries[key], ttl, now) then Some(entries[key].value) else None
  }

  function Retained<K(==), V>(entries: Entries<K, V>, ttl: nat, now: int): Entries<K, V> {
    map k | k in entries && Live(entries[k], ttl, now) :: entries[k]
  }

  /** What is kept, unchanged: exactly the entries younger than the ttl; a clock set back counts as no age. */
  lemma YoungEntriesAreKept<K, V>(entries: Entries<K, V>, ttl: nat, now: int, key: K)
    ensures key in Retained(entries, ttl, now)
       <==> key in entries && ttl > 0 && now - entries[key].insertedAt < ttl
    ensures key in Retained(entries, ttl, now) ==> Retained(entries, ttl, now)[key] == entries[key]
    ensures LookUp(entries, ttl, now, key)
         == if key in Retained(entries, ttl, now) then Some(entries[key].value) else None
  {
  }

  /** Dropping expired entries is invisible to every lookup made from then on. */
  lemma CleanupIsInvisible<K, V>(entries: Entries<K, V>, ttl: nat, now: int, later: int, key: K)
    requires now <= later
    ensures LookUp(Retained(entries, ttl, now), ttl, later, key) == LookUp(entries, ttl, later, key)
  {
    if key in entries && Live(entries[key], ttl, later) {
      assert Elapsed(entries[key].insertedAt, now) <= Elapsed(entries[key].insertedAt, later);
    }
  }

  class TimedCache<K(==), V(==)> {
    var entries: Entries<K, V>
    const ttl: nat

    constructor (ttl: nat)
      ensures this.ttl == ttl && entries == map[]
    {
      this.ttl := ttl;
      entries := map[];
    }

    method Get(key: K, now: int) returns (r: Option<V>)
      ensures r == LookUp(entries, ttl, now, key)
    {
      r := None;
      if key in entries {
        var tv := entries[key];
        if Elapsed(tv.insertedAt, now) < ttl {
          r := Some(tv.value);
        }
      }
    }

    method Insert(key: K, value: V, now: int)
      modifies this
      ensures entries == old(entries)[key := TimedValue(value, now)]
    {
      entries := entries[key := TimedValue(value, now)];
    }

    method Remove(key: K) returns (r: Option<V>)
      modifies this
      ensures entries == old(entries) - {key}
      ensures r == if key in old(entries) then Some(old(entries)[key].value) else None
    {
      r := if key in entries then Some(entries[key].value) else None;
      entries := entries - {key};
    }

    method Clear()
      modifies this
      ensures entries == map[]
    {
      entries := map[];
    }

    method CleanupExpired(now: int)
      modifies this
      ensures entries == Retained(old(entries), ttl, now)
    {
      var kept: Entries<K, V> := map[];
      var todo := entries.Keys;
      while todo != {}
        invariant todo <= entries.Keys && entries == old(entries)
        invariant kept == map k | k in entries.Keys - todo && Live(entries[k], ttl, now) :: entries[k]
        decreases |todo|
      {
        var k :| k in todo;
        todo := todo - {k};
        if Live(entries[k], ttl, now) {
          kept := kept[k := entries[k]];
        }
      }
      entries := kept;
    }
  }
}
