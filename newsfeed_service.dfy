/**
 * `NewsFeedService` of newsfeeds/services.py: the synchronous fan-out of a
 * tweet to its author's followers, and the push of one news feed row into its
 * owner's Redis list.
 */
module NewsfeedService {
  import opened Models
  import opened RedisHelper
  import opened FriendshipService

  /** `NewsFeed.objects.filter(user_id=userId)`, newest first: the table holds rows in creation
      order, so this is that user's rows from the last one back. */
  function FeedsOf(rows: seq<NewsFeed>, userId: int): seq<NewsFeed>
    decreases |rows|
  {
    if |rows| == 0 then []
    else
      var last := rows[|rows| - 1];
      (if last.userId == userId then [last] else []) + FeedsOf(rows[..|rows| - 1], userId)
  }

  /** `[NewsFeed(user_id=id, tweet_id=tweetId) for id in userIds]`. */
  function FeedsFor(userIds: seq<int>, tweetId: int): (feeds: seq<NewsFeed>)
    ensures |feeds| == |userIds|
    ensures forall i :: 0 <= i < |userIds| ==> feeds[i] == NewsFeed(userIds[i], tweetId)
  {
    seq(|userIds|, i requires 0 <= i < |userIds| => NewsFeed(userIds[i], tweetId))
  }

  lemma FeedsForAppend(a: seq<int>, b: seq<int>, tweetId: int)
    ensures FeedsFor(a + b, tweetId) == FeedsFor(a, tweetId) + FeedsFor(b, tweetId)
  {
  }

  /** When a suffix of the table holds a row `NewsFeed(u, t)` and every row of `u` in it is that
      row, the user's newest row is `NewsFeed(u, t)`. */
  lemma {:induction false} NewestFeedInSuffix(prefix: seq<NewsFeed>, suffix: seq<NewsFeed>, u: int, t: int)
    requires NewsFeed(u, t) in suffix
    requires forall f :: f in suffix && f.userId == u ==> f == NewsFeed(u, t)
    ensures |FeedsOf(prefix + suffix, u)| > 0 && FeedsOf(prefix + suffix, u)[0] == NewsFeed(u, t)
    decreases |suffix|
  {
    var rows := prefix + suffix;
    var last := suffix[|suffix| - 1];
    assert rows[|rows| - 1] == last;
    if last.userId != u {
      var shorter := suffix[..|suffix| - 1];
      assert rows[..|rows| - 1] == prefix + shorter;
      assert NewsFeed(u, t) in shorter;
      NewestFeedInSuffix(prefix, shorter, u, t);
    }
  }

  /** `push_newsfeeds_to_redis(newsfeed)`, whose body is not among the files modelled: a
      `push_object` on the owner's list, with the owner's rows, newest first, as fallback query. */
  method PushNewsfeedToRedis(redis: ListStore<int, NewsFeed>, db: Database, feed: NewsFeed)
    requires redis.Valid()
    modifies redis
    ensures redis.Valid()
    ensures redis.lists == PushState(old(redis.lists), feed.userId, feed, FeedsOf(db.newsfeeds, feed.userId), redis.limit)
  {
    redis.PushObject(feed.userId, feed, FeedsOf(db.newsfeeds, feed.userId));
  }

  /** `fanout_to_followers(tweet)`: one row per follower referencing the tweet, then the author's own
      row last, written by a single bulk insert (no per-row cache push: `redis` is not touched). */
  method FanoutToFollowers(db: Database, tweetId: int)
    requires tweetId in db.tweets
    modifies db`newsfeeds
    ensures var author := db.tweets[tweetId].userId;
      db.newsfeeds == old(db.newsfeeds)
        + FeedsFor(FollowerIds(db.friendships, db.users, author), tweetId)
        + [NewsFeed(author, tweetId)]
    ensures |db.newsfeeds| == |old(db.newsfeeds)| + |FollowerIds(db.friendships, db.users, db.tweets[tweetId].userId)| + 1
  {
    var tweet := db.tweets[tweetId];
    var followers := FollowerIds(db.friendships, db.users, tweet.userId);
    var newsfeeds := FeedsFor(followers, tweetId);
    newsfeeds := newsfeeds + [NewsFeed(tweet.userId, tweetId)];
    db.newsfeeds := db.newsfeeds + newsfeeds;
  }

  /** Every user who follows the author (a friendship to the author) gets a row for the tweet,
      and so does the author. */
  lemma FanoutReachesEveryFollower(
    friendships: seq<Friendship>, users: map<int, User>, author: int, tweetId: int, x: int)
    requires x in users && Friendship(x, author) in friendships
    ensures NewsFeed(x, tweetId) in FeedsFor(FollowerIds(friendships, users, author), tweetId) + [NewsFeed(author, tweetId)]
    ensures NewsFeed(author, tweetId) in FeedsFor(FollowerIds(friendships, users, author), tweetId) + [NewsFeed(author, tweetId)]
  {
    var followers := FollowerIds(friendships, users, author);
    FollowerIdsExact(friendships, users, author, x);
    var i :| 0 <= i < |followers| && followers[i] == x;
    assert FeedsFor(followers, tweetId)[i] == NewsFeed(x, tweetId);
  }

  /** Over distinct ids, each id's row occurs once and any other user's row not at all. */
  lemma {:induction false} FeedsForCount(ids: seq<int>, tweetId: int, x: int)
    requires Distinct(ids)
    ensures multiset(FeedsFor(ids, tweetId))[NewsFeed(x, tweetId)] == if x in ids then 1 else 0
    decreases |ids|
  {
    if |ids| > 0 {
      var init := ids[..|ids| - 1];
      var last := ids[|ids| - 1];
      FeedsForCount(init, tweetId, x);
      assert ids == init + [last];
      FeedsForAppend(init, [last], tweetId);
      assert last !in init by {
        assert forall k :: 0 <= k < |init| ==> init[k] == ids[k] != ids[|ids| - 1];
      }
    }
  }

  /** The fan-out writes exactly one row of the tweet for each follower of the author and one for
      the author, and none for anybody else (two, should the author follow themselves). */
  lemma FanoutRowsExactlyOnce(
    friendships: seq<Friendship>, users: map<int, User>, author: int, tweetId: int, x: int)
    ensures var rows := FeedsFor(FollowerIds(friendships, users, author), tweetId) + [NewsFeed(author, tweetId)];
      multiset(rows)[NewsFeed(x, tweetId)]
        == (if x in users && Friendship(x, author) in friendships then 1 else 0) + (if x == author then 1 else 0)
  {
    var followers := FollowerIds(friendships, users, author);
    FollowerIdsDistinct(friendships, users, author);
    FollowerIdsExact(friendships, users, author, x);
    FeedsForCount(followers, tweetId, x);
  }
}
