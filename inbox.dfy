/**
 * `NotificationService` of inbox/services.py: who is told about a like or a
 * comment, and with which verb. `notify.send` appends one notification to the
 * notification table; acting on your own content sends nothing.
 */
module Inbox {
  import opened Models

  /** `like.content_object` is a row that exists. */
  predicate LikeTargetExists(tweets: map<int, Tweet>, comments: map<int, Comment>, like: Like) {
    match like.contentType
    case TweetKind => like.objectId in tweets
    case CommentKind => like.objectId in comments
  }

  /** `target.user` of a like's target. */
  function LikeTargetOwner(tweets: map<int, Tweet>, comments: map<int, Comment>, like: Like): int
    requires LikeTargetExists(tweets, comments, like)
  {
    match like.contentType
    case TweetKind => tweets[like.objectId].userId
    case CommentKind => comments[like.objectId].userId
  }

  /** The notifications `send_like_notification` records: none when the liker owns the target, else
      one to the owner, whose verb and target follow the like's content type. */
  function LikeNotifications(tweets: map<int, Tweet>, comments: map<int, Comment>, like: Like): (ns: seq<Notification>)
    requires LikeTargetExists(tweets, comments, like)
  {
    var owner := LikeTargetOwner(tweets, comments, like);
    if like.userId == owner then []
    else match like.contentType
      case TweetKind => [Notification(like.userId, owner, "liked your tweet", TweetTarget(like.objectId))]
      case CommentKind => [Notification(like.userId, owner, "liked your comment", CommentTarget(like.objectId))]
  }

  /** The notifications `send_comment_notification` records: none when the commenter owns the tweet,
      else one to the tweet's owner. */
  function CommentNotifications(tweets: map<int, Tweet>, comment: Comment): (ns: seq<Notification>)
    requires comment.tweetId in tweets
  {
    var owner := tweets[comment.tweetId].userId;
    if comment.userId == owner then []
    else [Notification(comment.userId, owner, "comment your tweet", TweetTarget(comment.tweetId))]
  }

  /** No notification in the table tells a user about their own action. */
  predicate NoSelfNotifications(ns: seq<Notification>) {
    forall i :: 0 <= i < |ns| ==> ns[i].actorId != ns[i].recipientId
  }

  /** A like of your own tweet or comment notifies nobody; a like by anyone else notifies the owner
      exactly once, from the liker, with the verb and target of the like's content type. */
  lemma LikeNotificationRule(tweets: map<int, Tweet>, comments: map<int, Comment>, like: Like)
    requires LikeTargetExists(tweets, comments, like)
    ensures var ns := LikeNotifications(tweets, comments, like);
      && (ns == [] <==> like.userId == LikeTargetOwner(tweets, comments, like))
      && |ns| <= 1
      && NoSelfNotifications(ns)
      && (ns != [] ==>
            && ns[0].actorId == like.userId
            && ns[0].recipientId == LikeTargetOwner(tweets, comments, like)
            && (like.contentType == TweetKind ==>
                  ns[0].verb == "liked your tweet" && ns[0].target == TweetTarget(like.objectId))
            && (like.contentType == CommentKind ==>
                  ns[0].verb == "liked your comment" && ns[0].target == CommentTarget(like.objectId)))
  {
  }

  /** A comment on your own tweet notifies nobody; anyone else's comment notifies the tweet's owner
      exactly once with 'comment your tweet'. */
  lemma CommentNotificationRule(tweets: map<int, Tweet>, comment: Comment)
    requires comment.tweetId in tweets
    ensures var ns := CommentNotifications(tweets, comment);
      && (ns == [] <==> comment.userId == tweets[comment.tweetId].userId)
      && |ns| <= 1
      && NoSelfNotifications(ns)
      && (ns != [] ==> ns[0] == Notification(comment.userId, tweets[comment.tweetId].userId, "comment your tweet", TweetTarget(comment.tweetId)))
  {
  }

  /** The owner liking their tweet and then another user liking it leaves one notification, to the
      owner. */
  lemma SelfThenOtherLike(tweets: map<int, Tweet>, comments: map<int, Comment>, tweetId: int, other: int)
    requires tweetId in tweets && other != tweets[tweetId].userId
    ensures var owner := tweets[tweetId].userId;
      var ns := LikeNotifications(tweets, comments, Like(tweetId, TweetKind, owner))
              + LikeNotifications(tweets, comments, Like(tweetId, TweetKind, other));
      |ns| == 1 && ns[0].recipientId == owner
  {
  }

  /** `send_like_notification`: the self check, then one `notify.send` for the matching content type. */
  method SendLikeNotification(db: Database, like: Like)
    requires LikeTargetExists(db.tweets, db.comments, like)
    modifies db`notifications
    ensures db.notifications == old(db.notifications) + LikeNotifications(db.tweets, db.comments, like)
    ensures NoSelfNotifications(old(db.notifications)) ==> NoSelfNotifications(db.notifications)
  {
    var owner := LikeTargetOwner(db.tweets, db.comments, like);
    if like.userId == owner {
      return;
    }
    if like.contentType == TweetKind {
      db.notifications := db.notifications + [Notification(like.userId, owner, "liked your tweet", TweetTarget(like.objectId))];
    }
    if like.contentType == CommentKind {
      db.notifications := db.notifications + [Notification(like.userId, owner, "liked your comment", CommentTarget(like.objectId))];
    }
  }

  /** `send_comment_notification`: the self check, then one `notify.send` to the tweet's owner. */
  method SendCommentNotification(db: Database, comment: Comment)
    requires comment.tweetId in db.tweets
    modifies db`notifications
    ensures db.notifications == old(db.notifications) + CommentNotifications(db.tweets, comment)
    ensures NoSelfNotifications(old(db.notifications)) ==> NoSelfNotifications(db.notifications)
  {
    var owner := db.tweets[comment.tweetId].userId;
    if comment.userId == owner {
      return;
    }
    db.notifications := db.notifications + [Notification(comment.userId, owner, "comment your tweet", TweetTarget(comment.tweetId))];
  }
}
