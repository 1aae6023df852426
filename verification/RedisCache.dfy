/** The fail-open cache: a command Redis does not answer is a miss or does nothing. */
module RedisCaching {
  import opened Values
  import opened Consistency

  class RedisCache {
    var entries: map<string, CacheValue>

    constructor ()
      ensures entries == map[]
    {
      entries := map[];
    }

    method Get(key: string, up: bool) returns (value: Option<CacheValue>)
      ensures value == if up && key in entries then Some(entries[key]) else None
    {
      if !up || key !in entries {
        return None;
      }
      return Some(entries[key]);
    }

    method Set(key: string, value: CacheValue, up: bool)
      modifies this
      ensures entries == if up then old(entries)[key := value] else old(entries)
    {
      if up {
        entries := entries[key := value];
      }
    }

    method Del(keys: set<string>, up: bool)
      modifies this
      ensures entries == if up then old(entries) - keys else old(entries)
    {
      if up {
        entries := entries - keys;
      }
    }

    /** The server drops any entries, whenever it likes. */
    method Expire(keys: set<string>)
      modifies this
      ensures entries == old(entries) - keys
    {
      entries := entries - keys;
    }
  }
}
