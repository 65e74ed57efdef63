/**
 * `FriendshipService` of friendships/services.py: the followers query and
 * the cache-aside read of the set of users someone follows.
 *
 * `FOLLOWING_PATTERNS` formatted with the user id is a cache of its own here,
 * keyed by that user id.
 */
module FriendshipService {
  import opened Models
  import opened Memcached

  /** `get_followers(user)`: the users that follow `userId`, as ids, each once, in the order of
      their first friendship row. `User.objects.filter(id__in=...)` keeps only ids that are users
      and yields each user once, however many rows name it. */
  function FollowerIds(friendships: seq<Friendship>, users: map<int, User>, userId: int): seq<int>
    decreases |friendships|
  {
    if |friendships| == 0 then []
    else
      var earlier := FollowerIds(friendships[..|friendships| - 1], users, userId);
      var f := friendships[|friendships| - 1];
      if f.toUserId == userId && f.fromUserId in users && f.fromUserId !in earlier then earlier + [f.fromUserId]
      else earlier
  }

  /** No id occurs twice. */
  predicate Distinct(ids: seq<int>) {
    forall i, j :: 0 <= i < j < |ids| ==> ids[i] != ids[j]
  }

  /** Exactly the users with a friendship whose `to_user` is `userId` are followers. */
  lemma {:induction false} FollowerIdsExact(friendships: seq<Friendship>, users: map<int, User>, userId: int, x: int)
    ensures x in FollowerIds(friendships, users, userId) <==> x in users && Friendship(x, userId) in friendships
    decreases |friendships|
  {
    if |friendships| > 0 {
      var init := friendships[..|friendships| - 1];
      FollowerIdsExact(init, users, userId, x);
      assert friendships == init + [friendships[|friendships| - 1]];
    }
  }

  /** Each follower is listed once, even when the table holds a friendship more than once. */
  lemma {:induction false} FollowerIdsDistinct(friendships: seq<Friendship>, users: map<int, User>, userId: int)
    ensures Distinct(FollowerIds(friendships, users, userId))
    decreases |friendships|
  {
    if |friendships| > 0 {
      FollowerIdsDistinct(friendships[..|friendships| - 1], users, userId);
    }
  }

  /** `{to_user_id for friendships with from_user_id == u}`. */
  function FollowingIds(friendships: seq<Friendship>, fromUserId: int): set<int> {
    set f | f in friendships && f.fromUserId == fromUserId :: f.toUserId
  }

  lemma FollowingIdsExact(friendships: seq<Friendship>, fromUserId: int, x: int)
    ensures x in FollowingIds(friendships, fromUserId) <==> Friendship(fromUserId, x) in friendships
  {
    if Friendship(fromUserId, x) in friendships {
      assert Friendship(fromUserId, x).toUserId == x;
    }
  }

  /** Every cached following set is the one the friendships table gives. */
  ghost predicate FollowingCacheCoherent(entries: map<int, set<int>>, friendships: seq<Friendship>) {
    forall u :: u in entries ==> entries[u] == FollowingIds(friendships, u)
  }

  /** `get_following_user_id_set_through_memcached`: a hit (an empty set included, since the test is
      `!= None`) returns the cached set unchanged; a miss computes the set from the friendships table
      and caches it. Over a coherent cache the answer is the table's. */
  method GetFollowingUserIdSetThroughMemcached(cache: Cache<int, set<int>>, db: Database, fromUserId: int)
    returns (userIdSet: set<int>)
    modifies cache
    ensures fromUserId in old(cache.entries) ==>
      userIdSet == old(cache.entries)[fromUserId] && cache.entries == old(cache.entries)
    ensures fromUserId !in old(cache.entries) ==>
      userIdSet == FollowingIds(db.friendships, fromUserId) &&
      cache.entries == old(cache.entries)[fromUserId := userIdSet]
    ensures FollowingCacheCoherent(old(cache.entries), db.friendships) ==>
      FollowingCacheCoherent(cache.entries, db.friendships) &&
      userIdSet == FollowingIds(db.friendships, fromUserId)
  {
    if fromUserId in cache.entries {
      return cache.entries[fromUserId];
    }
    userIdSet := set f | f in db.friendships && f.fromUserId == fromUserId :: f.toUserId;
    cache.entries := cache.entries[fromUserId := userIdSet];
  }

  /** `invalidate_following_cache`: deletes that user's key only. */
  method InvalidateFollowingCache(cache: Cache<int, set<int>>, fromUserId: int)
    modifies cache
    ensures cache.entries == old(cache.entries) - {fromUserId}
  {
    cache.entries := cache.entries - {fromUserId};
  }

  /** Adding or removing friendships of one user and then invalidating that user's key (what the
      save and delete hooks of `Friendship` do) leaves every cached set equal to the table's. */
  lemma InvalidateAfterChangeKeepsCoherence(
    entries: map<int, set<int>>, friendships: seq<Friendship>, friendships': seq<Friendship>, fromUserId: int)
    requires FollowingCacheCoherent(entries, friendships)
    requires forall f: Friendship :: f.fromUserId != fromUserId ==> (f in friendships <==> f in friendships')
    ensures FollowingCacheCoherent(entries - {fromUserId}, friendships')
  {
    forall u | u in entries && u != fromUserId
      ensures FollowingIds(friendships', u) == FollowingIds(friendships, u)
    {
      forall x ensures x in FollowingIds(friendships', u) <==> x in FollowingIds(friendships, u) {
        FollowingIdsExact(friendships', u, x);
        FollowingIdsExact(friendships, u, x);
      }
    }
  }
}
