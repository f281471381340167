/** A Redis counter with an expiry: the key behind the rate limiter and the circuit breaker. Times
    are in milliseconds; a key past its expiry is as good as absent. */
module RedisCounter {
  import opened Wrappers

  datatype Key = Absent | Live(count: nat, expireAt: Option<int>)

  /** The key as any command executed at `now` finds it. */
  function At(k: Key, now: int): Key {
    if k.Live? && k.expireAt.Some? && k.expireAt.value <= now then Absent else k
  }

  function Value(k: Key, now: int): nat { if At(k, now).Live? then At(k, now).count else 0 }

  function Incremented(k: Key, now: int): Key {
    if At(k, now).Live? then Live(k.count + 1, k.expireAt) else Live(1, None)
  }

  function Expiring(k: Key, now: int, millis: nat): Key {
    if At(k, now).Live? then Live(k.count, Some(now + millis)) else Absent
  }

  class Counter {
    var key: Key

    constructor ()
      ensures key == Absent
    {
      key := Absent;
    }

    /** INCR, with the new value. */
    method Incr(now: int) returns (n: nat)
      modifies this
      ensures key == Incremented(old(key), now)
      ensures n == Value(old(key), now) + 1
    {
      if key.Live? && (key.expireAt == None || now < key.expireAt.value) {
        key := Live(key.count + 1, key.expireAt);
      } else {
        key := Live(1, None);
      }
      n := key.count;
    }

    /** EXPIRE; no effect on an absent key. */
    method Expire(now: int, millis: nat)
      modifies this
      ensures key == Expiring(old(key), now, millis)
    {
      if key.Live? && (key.expireAt == None || now < key.expireAt.value) {
        key := Live(key.count, Some(now + millis));
      } else {
        key := Absent;
      }
    }

    /** TTL: -2 for an absent key, -1 for one without expiry, else the time left rounded to whole
        seconds, which is 0 in the last half second. */
    method Ttl(now: int) returns (ttl: int)
      ensures At(key, now) == Absent <==> ttl == -2
      ensures ttl == -1 <==> At(key, now).Live? && key.expireAt == None
      ensures At(key, now).Live? && key.expireAt.Some? ==>
        0 <= ttl && key.expireAt.value - now - 500 < 1000 * ttl <= key.expireAt.value - now + 500
    {
      if key.Absent? || (key.expireAt.Some? && key.expireAt.value <= now) {
        return -2;
      }
      if key.expireAt == None {
        return -1;
      }
      return (key.expireAt.value - now + 500) / 1000;
    }

    method Delete()
      modifies this
      ensures key == Absent
    {
      key := Absent;
    }
  }
}
