/**
 The one Redis behaviour the program relies on: keys with an expiry, SET NX EX, and the
 compare-and-delete script.  The mutex and the webhook's duplicate filter are its clients.
 */
module RedisStore {
  import opened Wrappers
  import opened Timing

  datatype Entry = Entry(value: string, expiry: real)

  type Keys = map<string, Entry>

  /** GET: an expired key reads as absent. */
  function Get(keys: Keys, now: real, key: string): Option<string> {
    if key in keys && now < keys[key].expiry then Some(keys[key].value) else None
  }

  function SetNx(keys: Keys, now: real, key: string, value: string, ttl: real): Keys {
    if Get(keys, now, key).Some? then keys else keys[key := Entry(value, now + ttl)]
  }

  /** The release script: delete the key only if it still holds the caller's token. */
  function DelIf(keys: Keys, now: real, key: string, token: string): Keys {
    if Get(keys, now, key) == Some(token) then keys - {key} else keys
  }

  class Redis {
    var now: real
    var keys: Keys

    constructor ()
      ensures keys == map[]
    {
      now, keys := 0.0, map[];
    }

    method SetNxEx(key: string, value: string, ttl: real) returns (ok: bool)
      modifies `keys
      ensures ok <==> Get(old(keys), now, key).None?
      ensures keys == SetNx(old(keys), now, key, value, ttl)
    {
      ok := !(key in keys && now < keys[key].expiry);
      if ok {
        keys := keys[key := Entry(value, now + ttl)];
      }
    }

    method EvalRelease(key: string, token: string) returns (deleted: bool)
      modifies `keys
      ensures deleted <==> Get(old(keys), now, key) == Some(token)
      ensures keys == DelIf(old(keys), now, key, token)
    {
      deleted := false;
      if key in keys && now < keys[key].expiry && keys[key].value == token {
        keys := map k | k in keys && k != key :: keys[k];
        deleted := true;
      }
    }
  }

  class RedisDedup {
    const redis: Redis

    constructor (redis: Redis)
      ensures this.redis == redis
    {
      this.redis := redis;
    }

    /** True for the first sighting of the key within its time to live. */
    method TryMark(key: string, ttl: real) returns (first: bool)
      modifies redis`keys
      ensures first <==> Get(old(redis.keys), redis.now, "dedup:" + key).None?
      ensures redis.keys == SetNx(old(redis.keys), redis.now, "dedup:" + key, "1", ttl)
    {
      first := redis.SetNxEx("dedup:" + key, "1", ttl);
    }
  }

  datatype MutexAcquisitionError = MutexAcquisitionError(key: string)

  /** The store that try k of an acquisition meets. */
  function TryStore(first: Keys, later: nat -> Keys, k: nat): Keys {
    if k == 0 then first else later(k)
  }

  /** Try k reaches the store at sent(k); its answer is back at back(k), and a pause follows. */
  ghost predicate TriesApart(start: real, sent: nat -> real, back: nat -> real, pause: real) {
    start <= sent(0) && forall k: nat :: sent(k) <= back(k) && back(k) + pause <= sent(k + 1)
  }

  class RedisMutex {
    const redis: Redis

    constructor (redis: Redis)
      ensures this.redis == redis
    {
      this.redis := redis;
    }

    /**
     The retry loop.  `later(k)` is the store as other clients have left it before retry k.  Every
     try but the last finds the key held and is answered before the deadline; the last one finds
     it free, or finds it held and is answered at or after the deadline.
     */
    method Acquire(
      key: string, token: string, ttl: real, timeout: real, retryDelay: real,
      later: nat -> Keys, sent: nat -> real, back: nat -> real)
      returns (r: Result<real, MutexAcquisitionError>, tries: nat)
      requires retryDelay > 0.0 && TriesApart(redis.now, sent, back, retryDelay)
      modifies redis
      ensures tries >= 1
      ensures forall k: nat :: k < tries - 1 ==>
        Get(TryStore(old(redis.keys), later, k), sent(k), "mutex:" + key).Some? && back(k) < old(redis.now) + timeout
      ensures var store, at := TryStore(old(redis.keys), later, tries - 1), sent(tries - 1);
              && (r.Ok? <==> Get(store, at, "mutex:" + key).None?)
              && (r.Ok? ==> redis.keys == store["mutex:" + key := Entry(token, at + ttl)] && r.value == at + ttl)
              && (r.Err? ==> redis.keys == store && back(tries - 1) >= old(redis.now) + timeout)
    {
      var deadline, name := redis.now + timeout, "mutex:" + key;
      ghost var least := redis.now;
      tries := 0;
      while true
        invariant redis.keys == TryStore(old(redis.keys), later, tries) && least <= sent(tries)
        invariant forall k: nat :: k < tries ==>
          Get(TryStore(old(redis.keys), later, k), sent(k), name).Some? && back(k) < deadline
        decreases PollsLeft(least, deadline, retryDelay)
      {
        redis.now := sent(tries);
        var acquired := redis.SetNxEx(name, token, ttl);
        if acquired {
          return Ok(redis.now + ttl), tries + 1;
        }
        redis.now := back(tries);
        if redis.now >= deadline {
          return Err(MutexAcquisitionError(key)), tries + 1;
        }
        PauseDrops(least, deadline, retryDelay);
        least := least + retryDelay;
        tries := tries + 1;
        redis.keys := later(tries);
      }
    }

    /** The finally block: give the key back if it is still ours. */
    method Release(key: string, token: string)
      modifies redis`keys
      ensures redis.keys == DelIf(old(redis.keys), redis.now, "mutex:" + key, token)
    {
      var _ := redis.EvalRelease("mutex:" + key, token);
    }
  }
}
