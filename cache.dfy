/** The cache layer: the URLCache interface of the redirect handler as
    implemented over Redis by internal/cache/redis.go.

    The cache is a map from key to entry. An entry remembers the expiry it was
    stored with; expiry itself is not timed here: Expire removes an entry at an
    arbitrary moment, which covers a TTL running out as well as any eviction.
    Whether the Redis server answers is the CacheFault parameter. */
module RedisCache {
  import opened Errors

  /** time.Duration counts nanoseconds. */
  const Second: int := 1_000_000_000
  const Minute: int := 60 * Second

  /** The expiry both handlers give the entries they write. */
  const CacheTTL: int := 5 * Minute

  datatype Entry = Entry(value: string, ttl: int)

  datatype CacheFault = Up | Down(msg: string)

  /** What Get returns: a value, redis.Nil for a key that is not there, or
      another error. */
  datatype Reply = Hit(value: string) | Nil | Failed(msg: string)

  /** GET key */
  function Lookup(entries: map<string, Entry>, key: string, fault: CacheFault): (r: Reply)
    ensures r.Hit? <==> fault.Up? && key in entries
    ensures r.Hit? ==> r.value == entries[key].value
    ensures r.Nil? <==> fault.Up? && key !in entries
  {
    match fault
    case Down(msg) => Failed(msg)
    case Up => if key in entries then Hit(entries[key].value) else Nil
  }

  /** SET key value with expiry ttl: overwrites whatever the key held; a server that
      does not answer stores nothing. */
  function Stored(entries: map<string, Entry>, key: string, value: string, ttl: int, fault: CacheFault): (m: map<string, Entry>)
    ensures fault.Up? ==> key in m && m[key] == Entry(value, ttl)
    ensures forall k :: k != key ==> (k in m <==> k in entries)
    ensures forall k :: k in m && k != key ==> m[k] == entries[k]
    ensures fault.Down? ==> m == entries
  {
    if fault.Up? then entries[key := Entry(value, ttl)] else entries
  }

  class Cache {
    var entries: map<string, Entry>

    constructor ()
      ensures entries == map[]
    {
      entries := map[];
    }

    method Get(key: string, fault: CacheFault) returns (r: Reply)
      ensures r == Lookup(entries, key, fault)
    {
      if fault.Down? {
        return Failed(fault.msg);
      }
      if key !in entries {
        return Nil;
      }
      return Hit(entries[key].value);
    }

    method Set(key: string, value: string, ttl: int, fault: CacheFault) returns (err: Option<string>)
      modifies this
      ensures entries == Stored(old(entries), key, value, ttl, fault)
      ensures err.None? <==> fault.Up?
    {
      if fault.Down? {
        return Some(fault.msg);
      }
      entries := entries[key := Entry(value, ttl)];
      return None;
    }

    /** The entry under key expires or is evicted. */
    method Expire(key: string)
      modifies this
      ensures entries == old(entries) - {key}
    {
      entries := entries - {key};
    }
  }
}
