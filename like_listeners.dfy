/**
 * The denormalised like counters of likes/listeners.py: a like's save hook
 * adds one to its target's `likes_count`, its delete hook takes one away.
 *
 * The hooks dispatch on the class name of the like's `content_object`: a
 * comment goes to the comment table, anything else (a tweet, and also a
 * target that no longer exists, whose class is `NoneType`) to the tweet table.
 * `filter(id=...).update(...)` of an id with no row changes nothing.
 */
module LikeListeners {
  import opened Models

  /** `instance.content_object.__class__.__name__`. */
  function ContentClassName(tweets: map<int, Tweet>, comments: map<int, Comment>, like: Like): (name: string)
    ensures name == "Comment" <==> like.contentType == CommentKind && like.objectId in comments
    ensures name == "Tweet" <==> like.contentType == TweetKind && like.objectId in tweets
  {
    match like.contentType
    case TweetKind => if like.objectId in tweets then "Tweet" else "NoneType"
    case CommentKind => if like.objectId in comments then "Comment" else "NoneType"
  }

  /** `Tweet.objects.filter(id=id).update(likes_count=F('likes_count') + delta)`. */
  function BumpTweetLikes(tweets: map<int, Tweet>, id: int, delta: int): map<int, Tweet> {
    if id in tweets then tweets[id := tweets[id].(likesCount := tweets[id].likesCount + delta)] else tweets
  }

  /** `Comment.objects.filter(id=id).update(likes_count=F('likes_count') + delta)`. */
  function BumpCommentLikes(comments: map<int, Comment>, id: int, delta: int): map<int, Comment> {
    if id in comments then comments[id := comments[id].(likesCount := comments[id].likesCount + delta)] else comments
  }

  /** The number of likes of one object: `like_set.count()`. */
  function LikeCount(likes: seq<Like>, kind: ContentKind, objectId: int): nat
    decreases |likes|
  {
    if |likes| == 0 then 0
    else
      var last := likes[|likes| - 1];
      LikeCount(likes[..|likes| - 1], kind, objectId) + (if last.contentType == kind && last.objectId == objectId then 1 else 0)
  }

  lemma {:induction false} LikeCountAppend(a: seq<Like>, b: seq<Like>, kind: ContentKind, objectId: int)
    ensures LikeCount(a + b, kind, objectId) == LikeCount(a, kind, objectId) + LikeCount(b, kind, objectId)
    decreases |b|
  {
    if |b| > 0 {
      var b' := b[..|b| - 1];
      assert (a + b)[..|a + b| - 1] == a + b';
      LikeCountAppend(a, b', kind, objectId);
    } else {
      assert a + b == a;
    }
  }

  /** Every stored `likes_count` equals the number of likes of its row. */
  ghost predicate LikesCountsExact(tweets: map<int, Tweet>, comments: map<int, Comment>, likes: seq<Like>) {
    && (forall t :: t in tweets ==> tweets[t].likesCount == LikeCount(likes, TweetKind, t))
    && (forall c :: c in comments ==> comments[c].likesCount == LikeCount(likes, CommentKind, c))
  }

  /** The tables after a like's save hook. */
  function AfterIncr(tweets: map<int, Tweet>, comments: map<int, Comment>, like: Like): (map<int, Tweet>, map<int, Comment>) {
    if ContentClassName(tweets, comments, like) == "Comment" then (tweets, BumpCommentLikes(comments, like.objectId, 1))
    else (BumpTweetLikes(tweets, like.objectId, 1), comments)
  }

  /** The tables after a like's delete hook. */
  function AfterDecr(tweets: map<int, Tweet>, comments: map<int, Comment>, like: Like): (map<int, Tweet>, map<int, Comment>) {
    if ContentClassName(tweets, comments, like) == "Comment" then (tweets, BumpCommentLikes(comments, like.objectId, -1))
    else (BumpTweetLikes(tweets, like.objectId, -1), comments)
  }

  /** `incr_likes_count(instance, created)`: nothing unless the like row was just created; then one
      more like on the target's row, and no other row changes. */
  method IncrLikesCount(db: Database, like: Like, created: bool)
    modifies db`tweets, db`comments
    ensures !created ==> db.tweets == old(db.tweets) && db.comments == old(db.comments)
    ensures created ==> (db.tweets, db.comments) == AfterIncr(old(db.tweets), old(db.comments), like)
  {
    if !created {
      return;
    }
    var modelClass := ContentClassName(db.tweets, db.comments, like);
    if modelClass == "Comment" {
      db.comments := BumpCommentLikes(db.comments, like.objectId, 1);
      return;
    }
    db.tweets := BumpTweetLikes(db.tweets, like.objectId, 1);
  }

  /** `decr_likes_count(instance)`: one like less on the target's row; there is no `created` guard. */
  method DecrLikesCount(db: Database, like: Like)
    modifies db`tweets, db`comments
    ensures (db.tweets, db.comments) == AfterDecr(old(db.tweets), old(db.comments), like)
  {
    var modelClass := ContentClassName(db.tweets, db.comments, like);
    if modelClass == "Comment" {
      db.comments := BumpCommentLikes(db.comments, like.objectId, -1);
      return;
    }
    db.tweets := BumpTweetLikes(db.tweets, like.objectId, -1);
  }

  /** Only the target row moves, by exactly one: every other tweet and comment keeps its count. */
  lemma IncrTouchesOnlyTarget(tweets: map<int, Tweet>, comments: map<int, Comment>, like: Like)
    ensures var (tweets', comments') := AfterIncr(tweets, comments, like);
      && tweets'.Keys == tweets.Keys && comments'.Keys == comments.Keys
      && (forall t :: t in tweets && !(t == like.objectId && ContentClassName(tweets, comments, like) != "Comment") ==> tweets'[t] == tweets[t])
      && (forall c :: c in comments && !(c == like.objectId && ContentClassName(tweets, comments, like) == "Comment") ==> comments'[c] == comments[c])
      && (like.contentType == TweetKind && like.objectId in tweets ==>
            tweets'[like.objectId].likesCount == tweets[like.objectId].likesCount + 1)
      && (like.contentType == CommentKind && like.objectId in comments ==>
            comments'[like.objectId].likesCount == comments[like.objectId].likesCount + 1)
  {
  }

  /** A like on a comment that no longer exists has class `NoneType`, so its hooks fall through to
      the tweet table and move the tweet that happens to have the same id. */
  lemma MissingTargetFallsToTweetTable(tweets: map<int, Tweet>, comments: map<int, Comment>, like: Like)
    requires like.contentType == CommentKind && like.objectId !in comments && like.objectId in tweets
    ensures ContentClassName(tweets, comments, like) == "NoneType"
    ensures AfterDecr(tweets, comments, like).0[like.objectId].likesCount == tweets[like.objectId].likesCount - 1
  {
  }

  /** A like saved and then deleted leaves every counter as it was. */
  lemma IncrThenDecrRestores(tweets: map<int, Tweet>, comments: map<int, Comment>, like: Like)
    requires ContentClassName(tweets, comments, like) != "NoneType"
    ensures var (t1, c1) := AfterIncr(tweets, comments, like);
      AfterDecr(t1, c1, like) == (tweets, comments)
  {
    var (t1, c1) := AfterIncr(tweets, comments, like);
    if like.contentType == TweetKind {
      assert t1[like.objectId := t1[like.objectId].(likesCount := t1[like.objectId].likesCount - 1)] == tweets;
    } else {
      assert c1[like.objectId := c1[like.objectId].(likesCount := c1[like.objectId].likesCount - 1)] == comments;
    }
  }

  /** When a like on an existing row is added to the table and its save hook runs, every counter is
      still the number of likes of its row. */
  lemma InsertWithIncrKeepsCountsExact(tweets: map<int, Tweet>, comments: map<int, Comment>, likes: seq<Like>, like: Like)
    requires LikesCountsExact(tweets, comments, likes)
    requires ContentClassName(tweets, comments, like) != "NoneType"
    ensures var (tweets', comments') := AfterIncr(tweets, comments, like);
      LikesCountsExact(tweets', comments', likes + [like])
  {
    var likes' := likes + [like];
    assert likes'[..|likes'| - 1] == likes;
  }

  /** When a like on an existing row is removed from the table and its delete hook runs, every
      counter is still the number of likes of its row. */
  lemma DeleteWithDecrKeepsCountsExact(tweets: map<int, Tweet>, comments: map<int, Comment>, likes: seq<Like>, i: nat)
    requires i < |likes|
    requires LikesCountsExact(tweets, comments, likes)
    requires ContentClassName(tweets, comments, likes[i]) != "NoneType"
    ensures var (tweets', comments') := AfterDecr(tweets, comments, likes[i]);
      LikesCountsExact(tweets', comments', likes[..i] + likes[i + 1..])
  {
    var like := likes[i];
    assert likes == likes[..i] + ([like] + likes[i + 1..]);
    forall kind, id ensures LikeCount(likes, kind, id) ==
      LikeCount(likes[..i] + likes[i + 1..], kind, id) + (if like.contentType == kind && like.objectId == id then 1 else 0)
    {
      LikeCountAppend(likes[..i], [like] + likes[i + 1..], kind, id);
      LikeCountAppend([like], likes[i + 1..], kind, id);
      LikeCountAppend(likes[..i], likes[i + 1..], kind, id);
      assert [like][..0] == [];
    }
  }
}
