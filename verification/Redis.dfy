/** The Redis commands the coordination scripts use: a keyed store whose entries
    expire on one millisecond clock. A key is there while the clock is before its expiry. */
module RedisStore {
  import opened Prelude

  /** The keys of internal/coordination/redis.go; second and minute number the UTC seconds and minutes. */
  datatype Key =
    | Rate(environment: string, listener: string, consumer: string, second: nat)
    | Quota(environment: string, listener: string, consumer: string, minute: nat)
    | Failures(environment: string, upstream: string)
    | Open(environment: string, upstream: string)

  datatype Entry = Entry(value: nat, expiry: Option<nat>)

  predicate Live(entries: map<Key, Entry>, key: Key, now: nat) {
    key in entries && (entries[key].expiry == None || now < entries[key].expiry.value)
  }

  /** No entry but those of the given keys differs. */
  ghost predicate OnlyTouches(a: map<Key, Entry>, b: map<Key, Entry>, keys: set<Key>) {
    forall k | k !in keys :: (k in a <==> k in b) && (k in a ==> a[k] == b[k])
  }

  class Redis {
    var entries: map<Key, Entry>
    var clock: nat

    constructor ()
      ensures entries == map[] && clock == 0
    {
      entries, clock := map[], 0;
    }

    method Elapse(milliseconds: nat)
      modifies this`clock
      ensures clock == old(clock) + milliseconds
    {
      clock := clock + milliseconds;
    }

    /** INCR keeps the expiry of a live key and starts an absent or expired one at 1 without an expiry. */
    method Incr(key: Key) returns (value: nat)
      modifies this`entries
      ensures entries == old(entries)[key := Entry(value, if Live(old(entries), key, clock) then old(entries)[key].expiry else None)]
      ensures value == if Live(old(entries), key, clock) then old(entries)[key].value + 1 else 1
    {
      var entry := if Live(entries, key, clock) then entries[key] else Entry(0, None);
      value := entry.value + 1;
      entries := entries[key := entry.(value := value)];
    }

    method PExpire(key: Key, milliseconds: nat)
      requires milliseconds > 0
      modifies this`entries
      ensures entries == if Live(old(entries), key, clock)
        then old(entries)[key := old(entries)[key].(expiry := Some(clock + milliseconds))] else old(entries)
    {
      if Live(entries, key, clock) {
        entries := entries[key := entries[key].(expiry := Some(clock + milliseconds))];
      }
    }

    method SetPx(key: Key, value: nat, milliseconds: nat)
      requires milliseconds > 0
      modifies this`entries
      ensures entries == old(entries)[key := Entry(value, Some(clock + milliseconds))]
    {
      entries := entries[key := Entry(value, Some(clock + milliseconds))];
    }

    method Del(key: Key)
      modifies this`entries
      ensures entries == old(entries) - {key}
    {
      entries := entries - {key};
    }

    method Exists(key: Key) returns (found: bool)
      ensures found <==> Live(entries, key, clock)
    {
      found := Live(entries, key, clock);
    }
  }
}
