/**
 * `UserService` of accounts/services.py: cache-aside reads of users and
 * profiles through memcached, and their invalidation.
 *
 * The keys come from `USER_PATTERN` and `USER_PROFILE_PATTERN`, each
 * formatted with the user id. The two patterns have different prefixes, so
 * each is a cache of its own here, keyed by the user id it is formatted with.
 */
module UserService {
  import opened Wrappers
  import opened Models
  import opened Memcached

  /** Every cached user is the row the table holds: what the `user_change` hook keeps true by
      invalidating on every save and delete. */
  ghost predicate UserCacheCoherent(entries: map<int, User>, users: map<int, User>) {
    forall id :: id in entries ==> id in users && entries[id] == users[id]
  }

  ghost predicate ProfileCacheCoherent(entries: map<int, UserProfile>, profiles: map<int, UserProfile>) {
    forall id :: id in entries ==> id in profiles && entries[id] == profiles[id]
  }

  /** `get_user_through_memcached`: a hit returns the cached user without reading the table; a miss
      on an existing user caches and returns it; a miss on an unknown id returns None and caches
      nothing. Over a coherent cache the answer is the table's. */
  method GetUserThroughMemcached(cache: Cache<int, User>, db: Database, userId: int)
    returns (user: Option<User>)
    modifies cache
    ensures userId in old(cache.entries) ==>
      user == Some(old(cache.entries)[userId]) && cache.entries == old(cache.entries)
    ensures userId !in old(cache.entries) && userId in db.users ==>
      user == Some(db.users[userId]) && cache.entries == old(cache.entries)[userId := db.users[userId]]
    ensures userId !in old(cache.entries) && userId !in db.users ==>
      user == None && cache.entries == old(cache.entries)
    ensures UserCacheCoherent(old(cache.entries), db.users) ==>
      UserCacheCoherent(cache.entries, db.users) &&
      user == (if userId in db.users then Some(db.users[userId]) else None)
  {
    if userId in cache.entries {
      return Some(cache.entries[userId]);
    }
    if userId in db.users {
      var u := db.users[userId];
      cache.entries := cache.entries[userId := u];
      user := Some(u);
    } else {
      user := None;
    }
  }

  /** `invalidate_user_cache`: deletes that user's key only. */
  method InvalidateUserCache(cache: Cache<int, User>, userId: int)
    modifies cache
    ensures cache.entries == old(cache.entries) - {userId}
  {
    cache.entries := cache.entries - {userId};
  }

  /** `get_profile_through_memcached`: a hit returns the cached profile; a miss get-or-creates the
      profile row (an empty one when there is none) and caches it. Afterwards the row exists. */
  method GetProfileThroughMemcached(cache: Cache<int, UserProfile>, db: Database, userId: int)
    returns (profile: UserProfile)
    modifies cache, db`profiles
    ensures userId in old(cache.entries) ==>
      profile == old(cache.entries)[userId] && cache.entries == old(cache.entries) && db.profiles == old(db.profiles)
    ensures userId !in old(cache.entries) ==>
      && profile == (if userId in old(db.profiles) then old(db.profiles)[userId] else UserProfile(None, None))
      && db.profiles == old(db.profiles)[userId := profile]
      && cache.entries == old(cache.entries)[userId := profile]
    ensures ProfileCacheCoherent(old(cache.entries), old(db.profiles)) ==>
      && ProfileCacheCoherent(cache.entries, db.profiles)
      && userId in db.profiles && profile == db.profiles[userId]
  {
    if userId in cache.entries {
      return cache.entries[userId];
    }
    if userId in db.profiles {
      profile := db.profiles[userId];
    } else {
      profile := UserProfile(None, None);
      db.profiles := db.profiles[userId := profile];
    }
    cache.entries := cache.entries[userId := profile];
  }

  /** `invalidate_profile_cache`: deletes that user's profile key only. */
  method InvalidateProfileCache(cache: Cache<int, UserProfile>, userId: int)
    modifies cache
    ensures cache.entries == old(cache.entries) - {userId}
  {
    cache.entries := cache.entries - {userId};
  }

  /** Invalidating the changed row restores coherence after any write to that one row, which is
      how the save and delete hooks keep the cache from serving stale users. */
  lemma InvalidateRestoresCoherence(entries: map<int, User>, users: map<int, User>, users': map<int, User>, userId: int)
    requires UserCacheCoherent(entries, users)
    requires forall id :: id != userId ==> (id in users <==> id in users') && (id in users ==> users[id] == users'[id])
    ensures UserCacheCoherent(entries - {userId}, users')
  {
  }
}
