/**
 * The serializers of friendships/api/serializers.py: the follow validator
 * and insert, and the per-serializer memo of the viewer's following set that
 * `has_followed` reads.
 */
module FriendshipSerializers {
  import opened Wrappers
  import opened Models
  import opened Memcached
  import opened FriendshipService

  /** `FollowingSerializerForCreate.validate`: following yourself is refused first, then a follow
      that already exists; otherwise the data goes through unchanged. */
  function ValidateFollow(friendships: seq<Friendship>, data: Friendship): (r: Result<Friendship, ValidationError>)
    ensures r.Ok? <==> data.fromUserId != data.toUserId && data !in friendships
    ensures r.Ok? ==> r.value == data
    ensures data.fromUserId == data.toUserId ==>
      r == Err(ValidationError("message", "You cannot follow yourself."))
    ensures data.fromUserId != data.toUserId && data in friendships ==>
      r == Err(ValidationError("message", "You have already followed this user."))
  {
    if data.fromUserId == data.toUserId then
      Err(ValidationError("message", "You cannot follow yourself."))
    else if data in friendships then
      Err(ValidationError("message", "You have already followed this user."))
    else
      Ok(data)
  }

  /** The `unique_together = (from_user, to_user)` constraint of the friendship table. */
  ghost predicate NoDuplicateFollows(friendships: seq<Friendship>) {
    forall i, j :: 0 <= i < j < |friendships| ==> friendships[i] != friendships[j]
  }

  /** Inserting only what `ValidateFollow` accepts keeps every pair followed at most once and never
      makes anyone their own follower. */
  lemma ValidatedFollowKeepsTableSound(friendships: seq<Friendship>, data: Friendship)
    requires NoDuplicateFollows(friendships)
    requires forall f :: f in friendships ==> f.fromUserId != f.toUserId
    requires ValidateFollow(friendships, data).Ok?
    ensures NoDuplicateFollows(friendships + [data])
    ensures forall f :: f in friendships + [data] ==> f.fromUserId != f.toUserId
  {
    var t := friendships + [data];
    forall i, j | 0 <= i < j < |t| ensures t[i] != t[j] {
      if j == |friendships| {
        assert t[i] in friendships;
      }
    }
  }

  /** A second follow of the same pair is refused, so the table keeps one row for it. */
  lemma FollowTwiceRefused(friendships: seq<Friendship>, data: Friendship)
    requires ValidateFollow(friendships, data).Ok?
    ensures ValidateFollow(friendships + [data], data) == Err(ValidationError("message", "You have already followed this user."))
  {
  }

  /** `FollowingSerializerForCreate.create` with the save hook of `Friendship`: exactly one row is
      added, and the follower's cached following set is invalidated, which keeps that cache in step
      with the table. */
  method CreateFollow(db: Database, followingCache: Cache<int, set<int>>, data: Friendship)
    returns (friendship: Friendship)
    modifies db`friendships, followingCache
    ensures friendship == data
    ensures db.friendships == old(db.friendships) + [data]
    ensures followingCache.entries == old(followingCache.entries) - {data.fromUserId}
    ensures FollowingCacheCoherent(old(followingCache.entries), old(db.friendships)) ==>
      FollowingCacheCoherent(followingCache.entries, db.friendships)
  {
    friendship := data;
    db.friendships := db.friendships + [friendship];
    InvalidateFollowingCache(followingCache, friendship.fromUserId);
    if FollowingCacheCoherent(old(followingCache.entries), old(db.friendships)) {
      InvalidateAfterChangeKeepsCoherence(old(followingCache.entries), old(db.friendships), db.friendships, data.fromUserId);
    }
  }

  /** A following or follower list serializer for one request: `viewer` is the requesting user's id,
      `None` when anonymous, and `cachedFollowingUserIdSet` is the memo that `setattr` stores. */
  class FollowListSerializer {
    const viewer: Option<int>
    var cachedFollowingUserIdSet: Option<set<int>>

    /** The memo is only ever set for a signed-in viewer, and holds that viewer's following set. */
    ghost predicate MemoAgrees(friendships: seq<Friendship>)
      reads this
    {
      cachedFollowingUserIdSet.Some? ==>
        viewer.Some? && cachedFollowingUserIdSet.value == FollowingIds(friendships, viewer.value)
    }

    constructor (viewer: Option<int>)
      ensures this.viewer == viewer && cachedFollowingUserIdSet == None
    {
      this.viewer := viewer;
      cachedFollowingUserIdSet := None;
    }

    /** `following_user_id_set`: empty for an anonymous viewer; otherwise the memo when set, else one
        cache-aside read whose result is memoised, so the set is computed at most once per instance. */
    method FollowingUserIdSet(followingCache: Cache<int, set<int>>, db: Database) returns (userIdSet: set<int>)
      modifies this, followingCache
      ensures viewer.None? ==>
        userIdSet == {} && cachedFollowingUserIdSet == old(cachedFollowingUserIdSet) &&
        followingCache.entries == old(followingCache.entries)
      ensures viewer.Some? && old(cachedFollowingUserIdSet).Some? ==>
        userIdSet == old(cachedFollowingUserIdSet).value && cachedFollowingUserIdSet == old(cachedFollowingUserIdSet) &&
        followingCache.entries == old(followingCache.entries)
      ensures viewer.Some? ==> cachedFollowingUserIdSet == Some(userIdSet)
      ensures FollowingCacheCoherent(old(followingCache.entries), db.friendships) && old(MemoAgrees(db.friendships)) ==>
        && FollowingCacheCoherent(followingCache.entries, db.friendships)
        && MemoAgrees(db.friendships)
        && userIdSet == (if viewer.Some? then FollowingIds(db.friendships, viewer.value) else {})
    {
      if viewer.None? {
        return {};
      }
      if cachedFollowingUserIdSet.Some? {
        return cachedFollowingUserIdSet.value;
      }
      userIdSet := GetFollowingUserIdSetThroughMemcached(followingCache, db, viewer.value);
      cachedFollowingUserIdSet := Some(userIdSet);
    }

    /** `FollowingSerializer.get_has_followed`: whether the viewer follows the row's `to_user`. */
    method HasFollowedFollowing(followingCache: Cache<int, set<int>>, db: Database, row: Friendship) returns (hasFollowed: bool)
      modifies this, followingCache
      ensures viewer.None? ==> !hasFollowed
      ensures FollowingCacheCoherent(old(followingCache.entries), db.friendships) && old(MemoAgrees(db.friendships)) ==>
        && FollowingCacheCoherent(followingCache.entries, db.friendships)
        && MemoAgrees(db.friendships)
        && (hasFollowed <==> viewer.Some? && Friendship(viewer.value, row.toUserId) in db.friendships)
    {
      var userIdSet := FollowingUserIdSet(followingCache, db);
      hasFollowed := row.toUserId in userIdSet;
      if viewer.Some? {
        FollowingIdsExact(db.friendships, viewer.value, row.toUserId);
      }
    }

    /** `FollowerSerializer.get_has_followed`: whether the viewer follows the row's `from_user`. */
    method HasFollowedFollower(followingCache: Cache<int, set<int>>, db: Database, row: Friendship) returns (hasFollowed: bool)
      modifies this, followingCache
      ensures viewer.None? ==> !hasFollowed
      ensures FollowingCacheCoherent(old(followingCache.entries), db.friendships) && old(MemoAgrees(db.friendships)) ==>
        && FollowingCacheCoherent(followingCache.entries, db.friendships)
        && MemoAgrees(db.friendships)
        && (hasFollowed <==> viewer.Some? && Friendship(viewer.value, row.fromUserId) in db.friendships)
    {
      var userIdSet := FollowingUserIdSet(followingCache, db);
      hasFollowed := row.fromUserId in userIdSet;
      if viewer.Some? {
        FollowingIdsExact(db.friendships, viewer.value, row.fromUserId);
      }
    }
  }
}
