/** The in-memory cache in front of the balances table: a map of entries with an expiry time. */
module BalanceCache {
  import opened Wrappers
  import opened CacheKeys
  import opened BalanceTable

  /** Thirty minutes in milliseconds. */
  const TTL: int := 30 * 60 * 1000

  datatype Entry = Entry(balance: Row, expiresAt: int)

  type Cache = map<string, Entry>

  predicate Expired(e: Entry, now: int) {
    now > e.expiresAt
  }

  /** Reading a slot drops it when it has expired. */
  function Touched(cache: Cache, key: string, now: int): Cache {
    if key in cache && Expired(cache[key], now) then cache - {key} else cache
  }

  function Fresh(cache: Cache, key: string, now: int): Option<Row> {
    if key in cache && !Expired(cache[key], now) then Some(cache[key].balance) else None
  }

  function Put(cache: Cache, key: string, balance: Row, now: int): Cache {
    cache[key := Entry(balance, now + TTL)]
  }

  function Evicted(cache: Cache, prefix: string): Cache {
    map key | key in cache && !(prefix <= key) :: cache[key]
  }

  /** Evicting a pair removes every slot of that pair, for all leave types and years, and no other
      slot of plain ids. */
  lemma EvictionIsExact(cache: Cache, d: Dims, employee: string, location: string, year: int)
    requires PlainIds(d) && PlainIds(Dims(employee, location, ""))
    ensures CacheKey(d, year) in Evicted(cache, PairPrefix(employee, location)) <==>
      CacheKey(d, year) in cache && !(d.employee == employee && d.location == location)
    ensures CacheKey(d, year) in Evicted(cache, PairPrefix(employee, location)) ==>
      Evicted(cache, PairPrefix(employee, location))[CacheKey(d, year)] == cache[CacheKey(d, year)]
  {
    PrefixSelectsPair(employee, location, d, year);
  }

  /** The employee-wide eviction removes exactly the slots of that employee. */
  lemma EmployeeEvictionIsExact(cache: Cache, d: Dims, employee: string, year: int)
    requires PlainIds(d) && PlainIds(Dims(employee, "", ""))
    ensures CacheKey(d, year) in Evicted(cache, employee + ":") <==> CacheKey(d, year) in cache && d.employee != employee
  {
    PrefixSelectsEmployee(employee, d, year);
  }

  class BalanceCacheService {
    var cache: Cache

    constructor ()
      ensures cache == map[]
    {
      cache := map[];
    }

    method IsCached(key: string, now: int) returns (hit: bool)
      modifies this
      ensures cache == Touched(old(cache), key, now)
      ensures hit <==> key in cache
      ensures hit <==> Fresh(old(cache), key, now).Some?
    {
      if key !in cache {
        return false;
      }
      if Expired(cache[key], now) {
        cache := cache - {key};
        return false;
      }
      return true;
    }

    method GetFromCache(key: string, now: int) returns (balance: Option<Row>)
      modifies this
      ensures cache == Touched(old(cache), key, now)
      ensures balance == Fresh(old(cache), key, now)
    {
      var hit := IsCached(key, now);
      if !hit {
        return None;
      }
      return Some(cache[key].balance);
    }

    method SetInCache(key: string, balance: Row, now: int)
      modifies this
      ensures cache == Put(old(cache), key, balance, now)
    {
      cache := cache[key := Entry(balance, now + TTL)];
    }

    method KeysWithPrefix(prefix: string) returns (keys: seq<string>)
      ensures forall k :: k in keys <==> k in cache && prefix <= k
    {
      keys := [];
      var unseen := cache.Keys;
      while unseen != {}
        invariant unseen <= cache.Keys
        invariant forall k :: k in keys <==> k in cache && k !in unseen && prefix <= k
        decreases |unseen|
      {
        var key :| key in unseen;
        if prefix <= key {
          keys := keys + [key];
        }
        unseen := unseen - {key};
      }
    }

    method DeleteKeys(keys: seq<string>)
      modifies this
      ensures cache == map k | k in old(cache) && k !in keys :: old(cache)[k]
    {
      for i := 0 to |keys|
        invariant cache == map k | k in old(cache) && k !in keys[..i] :: old(cache)[k]
      {
        assert keys[..i + 1] == keys[..i] + [keys[i]];
        cache := cache - {keys[i]};
      }
      assert keys[..|keys|] == keys;
    }

    /** Collects the keys that carry the prefix, then deletes them. */
    method DeleteByPrefix(prefix: string)
      modifies this
      ensures cache == Evicted(old(cache), prefix)
    {
      var keys := KeysWithPrefix(prefix);
      DeleteKeys(keys);
    }

    method InvalidateCache(employee: string, location: string)
      modifies this
      ensures cache == Evicted(old(cache), PairPrefix(employee, location))
    {
      DeleteByPrefix(PairPrefix(employee, location));
    }

    method InvalidateAllEmployeeCache(employee: string)
      modifies this
      ensures cache == Evicted(old(cache), employee + ":")
    {
      DeleteByPrefix(employee + ":");
    }

    method ClearAll()
      modifies this
      ensures cache == map[]
    {
      cache := map[];
    }
  }
}
