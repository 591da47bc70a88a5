/** The key-value cache client the session handlers use (`get`, `set` with
    a lifetime in seconds, `del`). An entry remembers when it expires;
    reads at or after that instant see nothing, which is how the cache's
    own eviction looks from outside. The clock is a parameter. */
module Cache {
  import opened Common

  datatype Entry = Entry(value: string, expiresAt: int)

  /** What `get(key)` answers at time `now`: the value of a live entry,
      or nothing for an absent or expired one. */
  function Lookup(entries: map<string, Entry>, key: string, now: int): Option<string>
  {
    if key in entries && now < entries[key].expiresAt then Some(entries[key].value) else None
  }

  /** An entry set at `t0` with lifetime `ttl` is read back until just
      before `t0 + ttl` and not from then on; other keys read as before. */
  lemma LookupAfterSet(entries: map<string, Entry>, key: string, value: string, t0: int, ttl: nat, other: string, now: int)
    requires other != key
    ensures Lookup(entries[key := Entry(value, t0 + ttl)], key, now) == (if now < t0 + ttl then Some(value) else None)
    ensures Lookup(entries[key := Entry(value, t0 + ttl)], other, now) == Lookup(entries, other, now)
  {
  }

  class RedisClient {
    var entries: map<string, Entry>
    var reachable: bool

    /** A connected client over an empty cache. */
    constructor ()
      ensures entries == map[] && reachable
    {
      entries, reachable := map[], true;
    }

    /** `get(key)` at time `now`. */
    method Get(key: string, now: int) returns (r: StoreResult<Option<string>>)
      ensures !reachable ==> r == Unreachable
      ensures reachable ==> r == Done(Lookup(entries, key, now))
    {
      if !reachable { return Unreachable; }
      r := Done(Lookup(entries, key, now));
    }

    /** `set(key, value, duration)` at time `now`: the key now holds the
        value until `now + duration`; no other key changes. */
    method Set(key: string, value: string, duration: nat, now: int) returns (r: StoreResult<()>)
      modifies this`entries
      ensures r.Done? == reachable
      ensures entries == if reachable then old(entries)[key := Entry(value, now + duration)] else old(entries)
    {
      if !reachable { return Unreachable; }
      entries := entries[key := Entry(value, now + duration)];
      r := Done(());
    }

    /** `del(key)`: removes the key; no other key changes. */
    method Del(key: string) returns (r: StoreResult<()>)
      modifies this`entries
      ensures r.Done? == reachable
      ensures entries == if reachable then old(entries) - {key} else old(entries)
    {
      if !reachable { return Unreachable; }
      entries := entries - {key};
      r := Done(());
    }
  }
}
