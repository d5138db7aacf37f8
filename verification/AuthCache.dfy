// The cache of src/services/auth_cache.rs as an object: a map changed in place under a lock.
module AuthCache {
  import opened Base
  import opened CacheHistory

  class Cache {
    const ttl: Option<nat>
    var entries: Entries

    constructor (ttlSeconds: nat, second: nat)
      ensures ttl == (if ttlSeconds > 0 then Some(ttlSeconds * second) else None) && entries == map[]
    {
      ttl := if ttlSeconds > 0 then Some(ttlSeconds * second) else None;
      entries := map[];
    }

    // Without a lifetime nothing is ever stored.
    ghost predicate Valid()
      reads this
    {
      ttl.None? ==> entries == map[]
    }

    method Get(token: Token, now: int) returns (user: Option<string>)
      requires Valid()
      ensures user == Found(entries, token, now)
      ensures ttl.None? ==> user == None
    {
      user := None;
      if ttl.Some? && token in entries {
        var entry := entries[token];
        if entry.expiresAt > now {
          user := Some(entry.user);
        }
      }
    }

    method Insert(token: Token, userId: string, user: string, sweptAt: int, at: int)
      requires Valid()
      modifies this
      ensures Valid()
      ensures ttl.Some? ==>
        entries == MadeRoom(old(entries), sweptAt)[token := Entry(user, userId, at + ttl.value)]
      ensures old(|entries|) <= MAX_ENTRIES ==> |entries| <= MAX_ENTRIES
    {
      if ttl.None? {
        return;
      }
      RoomForOne(entries, sweptAt);
      if |entries| >= MAX_ENTRIES {
        entries := map t | t in entries && entries[t].expiresAt > sweptAt :: entries[t];
        if |entries| >= MAX_ENTRIES {
          entries := map[];
        }
      }
      assert entries[token := Entry(user, userId, at + ttl.value)].Keys == entries.Keys + {token};
      entries := entries[token := Entry(user, userId, at + ttl.value)];
    }

    method InvalidateToken(token: Token)
      requires Valid()
      modifies this
      ensures Valid() && entries == old(entries) - {token}
    {
      if ttl.Some? {
        entries := entries - {token};
      }
    }

    method InvalidateUser(userId: string)
      requires Valid()
      modifies this
      ensures Valid() && entries == Without(old(entries), userId)
    {
      if ttl.Some? {
        entries := map t | t in entries && entries[t].userId != userId :: entries[t];
      }
    }

    method PurgeExpired(now: int)
      requires Valid()
      modifies this
      ensures Valid() && entries == Live(old(entries), now)
    {
      if ttl.Some? {
        entries := map t | t in entries && entries[t].expiresAt > now :: entries[t];
      }
    }
  }
}
