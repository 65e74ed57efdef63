/**
 * The denormalised comment counter of comments/listeners.py: a comment's
 * save hook adds one to its tweet's `comments_count`, its delete hook takes
 * one away. Only the tweet with the comment's `tweet_id` is touched, and an
 * id with no tweet row changes nothing.
 */
module CommentListeners {
  import opened Models

  /** `Tweet.objects.filter(id=tweetId).update(comments_count=F('comments_count') + delta)`. */
  function BumpCommentsCount(tweets: map<int, Tweet>, tweetId: int, delta: int): map<int, Tweet> {
    if tweetId in tweets then tweets[tweetId := tweets[tweetId].(commentsCount := tweets[tweetId].commentsCount + delta)]
    else tweets
  }

  /** The ids of the comments on one tweet: `comment_set`. */
  function CommentsOn(comments: map<int, Comment>, tweetId: int): set<int> {
    set id | id in comments && comments[id].tweetId == tweetId
  }

  /** Every tweet's stored `comments_count` equals the number of its comments. */
  ghost predicate CommentsCountsExact(tweets: map<int, Tweet>, comments: map<int, Comment>) {
    forall t :: t in tweets ==> tweets[t].commentsCount == |CommentsOn(comments, t)|
  }

  /** `incr_comments_count(instance, created)`: nothing unless the comment was just created; then one
      more on its tweet. */
  method IncrCommentsCount(db: Database, comment: Comment, created: bool)
    modifies db`tweets
    ensures !created ==> db.tweets == old(db.tweets)
    ensures created ==> db.tweets == BumpCommentsCount(old(db.tweets), comment.tweetId, 1)
  {
    if !created {
      return;
    }
    db.tweets := BumpCommentsCount(db.tweets, comment.tweetId, 1);
  }

  /** `decr_comments_count(instance)`: one less on the comment's tweet; there is no `created` guard. */
  method DecrCommentsCount(db: Database, comment: Comment)
    modifies db`tweets
    ensures db.tweets == BumpCommentsCount(old(db.tweets), comment.tweetId, -1)
  {
    db.tweets := BumpCommentsCount(db.tweets, comment.tweetId, -1);
  }

  /** Only the comment's tweet moves, by exactly `delta`, and no row appears or disappears. */
  lemma BumpTouchesOnlyThatTweet(tweets: map<int, Tweet>, tweetId: int, delta: int)
    ensures var tweets' := BumpCommentsCount(tweets, tweetId, delta);
      && tweets'.Keys == tweets.Keys
      && (forall t :: t in tweets && t != tweetId ==> tweets'[t] == tweets[t])
      && (tweetId in tweets ==>
            tweets'[tweetId] == tweets[tweetId].(commentsCount := tweets[tweetId].commentsCount + delta))
  {
  }

  lemma CommentsOnInsert(comments: map<int, Comment>, id: int, comment: Comment, t: int)
    requires id !in comments
    ensures CommentsOn(comments[id := comment], t)
         == if comment.tweetId == t then CommentsOn(comments, t) + {id} else CommentsOn(comments, t)
  {
    var comments' := comments[id := comment];
    forall x ensures x in CommentsOn(comments', t) <==> x in (if comment.tweetId == t then CommentsOn(comments, t) + {id} else CommentsOn(comments, t)) {
      if x != id {
        assert x in comments' <==> x in comments;
      }
    }
  }

  lemma CommentsOnDelete(comments: map<int, Comment>, id: int, t: int)
    requires id in comments
    ensures CommentsOn(comments - {id}, t)
         == if comments[id].tweetId == t then CommentsOn(comments, t) - {id} else CommentsOn(comments, t)
  {
    var comments' := comments - {id};
    forall x ensures x in CommentsOn(comments', t) <==> x in (if comments[id].tweetId == t then CommentsOn(comments, t) - {id} else CommentsOn(comments, t)) {
      if x != id {
        assert x in comments' <==> x in comments;
      }
    }
  }

  /** Inserting a comment under a fresh id and running its save hook keeps every count exact. */
  lemma InsertWithIncrKeepsCountsExact(tweets: map<int, Tweet>, comments: map<int, Comment>, id: int, comment: Comment)
    requires CommentsCountsExact(tweets, comments)
    requires id !in comments
    ensures CommentsCountsExact(BumpCommentsCount(tweets, comment.tweetId, 1), comments[id := comment])
  {
    var tweets' := BumpCommentsCount(tweets, comment.tweetId, 1);
    forall t | t in tweets'
      ensures tweets'[t].commentsCount == |CommentsOn(comments[id := comment], t)|
    {
      CommentsOnInsert(comments, id, comment, t);
      assert id !in CommentsOn(comments, t);
    }
  }

  /** Deleting a comment and running its delete hook keeps every count exact. */
  lemma DeleteWithDecrKeepsCountsExact(tweets: map<int, Tweet>, comments: map<int, Comment>, id: int)
    requires CommentsCountsExact(tweets, comments)
    requires id in comments
    ensures CommentsCountsExact(BumpCommentsCount(tweets, comments[id].tweetId, -1), comments - {id})
  {
    var tweets' := BumpCommentsCount(tweets, comments[id].tweetId, -1);
    forall t | t in tweets'
      ensures tweets'[t].commentsCount == |CommentsOn(comments - {id}, t)|
    {
      CommentsOnDelete(comments, id, t);
    }
  }
}
