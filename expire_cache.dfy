/** `EXPIRE_CACHE`: a key-value store whose entries carry an expiry time in
    milliseconds.  An entry read after its expiry is removed and reads as
    missing.  The clock (`Date.now()`) is a parameter, as is whether the
    underlying read fails. */
module ExpireCache {
  import opened Wrappers

  /** The stored `expire` field: `false` when no time to live was given, or
      a time in milliseconds. */
  datatype Expiry = NoExpiry | At(ms: int)

  datatype Entry<V> = Entry(value: V, expire: Expiry)

  /** `expire < Date.now()` compares `false` as 0. */
  function ExpiryMillis(e: Expiry): int {
    match e
    case NoExpiry => 0
    case At(ms) => ms
  }

  /** What `set` stores for a time to live of `ttl` seconds, given at `now`:
      nothing given stays `false`; 0 is falsy and is stored as 0. */
  function ExpiryFor(ttl: Option<int>, now: int): (e: Expiry)
    ensures ttl.None? ==> e == NoExpiry
    ensures ttl == Some(0) ==> e == At(0)
    ensures ttl.Some? && ttl.value != 0 ==> e == At(ttl.value * 1000 + now)
  {
    match ttl
    case None => NoExpiry
    case Some(s) => if s != 0 then At(s * 1000 + now) else At(0)
  }

  predicate Expired<V>(e: Entry<V>, now: int) {
    ExpiryMillis(e.expire) < now
  }

  /** What `get` returns: nothing when the read fails or the key is missing
      or expired, the stored value otherwise. */
  function Lookup<V>(store: map<string, Entry<V>>, key: string, now: int, readFails: bool): (r: Option<V>)
    ensures r.Some? <==> !readFails && key in store && !Expired(store[key], now)
    ensures r.Some? ==> r.value == store[key].value
  {
    if readFails || key !in store then None
    else if Expired(store[key], now) then None
    else Some(store[key].value)
  }

  /** The store after `get`: an expired entry it read is removed. */
  function AfterLookup<V>(store: map<string, Entry<V>>, key: string, now: int, readFails: bool): (s: map<string, Entry<V>>)
    ensures forall k :: k != key ==> (k in s <==> k in store) && (k in s ==> s[k] == store[k])
    ensures key in s <==> key in store && (readFails || !Expired(store[key], now))
  {
    if !readFails && key in store && Expired(store[key], now) then store - {key} else store
  }

  /** The store after `set`. */
  function Store<V>(store: map<string, Entry<V>>, key: string, value: V, ttl: Option<int>, now: int): (s: map<string, Entry<V>>)
    ensures key in s && s[key] == Entry(value, ExpiryFor(ttl, now))
    ensures forall k :: k != key ==> (k in s <==> k in store) && (k in s ==> s[k] == store[k])
  {
    store[key := Entry(value, ExpiryFor(ttl, now))]
  }

  class Cache<V> {
    var store: map<string, Entry<V>>

    constructor()
      ensures store == map[]
    {
      store := map[];
    }

    method Get(key: string, now: int, readFails: bool) returns (r: Option<V>)
      modifies this
      ensures r == Lookup(old(store), key, now, readFails)
      ensures store == AfterLookup(old(store), key, now, readFails)
    {
      if readFails || key !in store {
        return None;
      }
      var data := store[key];
      if ExpiryMillis(data.expire) < now {
        store := store - {key};
        return None;
      }
      return Some(data.value);
    }

    method Set(key: string, value: V, ttl: Option<int>, now: int)
      modifies this
      ensures store == Store(old(store), key, value, ttl, now)
    {
      var expire := if ttl.Some? then At(ttl.value) else NoExpiry;
      if ttl.Some? && ttl.value != 0 {
        expire := At(ttl.value * 1000 + now);
      }
      store := store[key := Entry(value, expire)];
    }
  }

  /** A value stored with a positive time to live reads back until its
      expiry time, and not after. */
  lemma SetThenGet<V>(store: map<string, Entry<V>>, key: string, value: V, ttl: int, now: int, later: int)
    requires ttl > 0
    ensures (Lookup(Store(store, key, value, Some(ttl), now), key, later, false) == Some(value))
      <==> later <= now + ttl * 1000
  {
  }

  /** Without a time to live, or with 0, the stored expiry is 0 and the
      entry reads as expired at any positive time: the value is never read
      back, and the read removes it. */
  lemma NoTimeToLiveNeverReadBack<V>(store: map<string, Entry<V>>, key: string, value: V, ttl: Option<int>, now: int, later: int)
    requires ttl.None? || ttl == Some(0)
    requires later > 0
    ensures Lookup(Store(store, key, value, ttl, now), key, later, false) == None
    ensures key !in AfterLookup(Store(store, key, value, ttl, now), key, later, false)
  {
  }

  /** A failed read is a miss and leaves the store alone. */
  lemma FailedReadIsMiss<V>(store: map<string, Entry<V>>, key: string, now: int)
    ensures Lookup(store, key, now, true) == None
    ensures AfterLookup(store, key, now, true) == store
  {
  }

  /** Reading twice at the same time gives the same answer; the first read
      already removed what had expired. */
  lemma LookupIdempotent<V>(store: map<string, Entry<V>>, key: string, now: int)
    ensures var after := AfterLookup(store, key, now, false);
      Lookup(after, key, now, false) == Lookup(store, key, now, false)
      && AfterLookup(after, key, now, false) == after
  {
  }
}
