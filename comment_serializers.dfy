/**
 * The comment serializers of comments/api/serializers.py: the create
 * validator and insert, the content-only update, and the occasional
 * reconciliation of a comment's stored `likes_count` with its real count.
 * The save hooks of comments/listeners.py run after every save.
 */
module CommentSerializers {
  import opened Wrappers
  import opened Models
  import opened Fields
  import opened LikeListeners
  import opened CommentListeners

  /** The request data: `tweet_id` and `content`. */
  datatype CommentData = CommentData(tweetId: int, content: string)

  /** The `content` field the serializer derives from the model's `TextField(max_length=140)`. */
  function ContentFieldErrors(content: string): (errs: seq<ValidationError>)
    ensures errs == [] <==> 0 < |content| <= 140
  {
    CharFieldErrors("content", content, 0, Some(140))
  }

  /** `CommentSerializerForCreate.validate`: the tweet must exist. */
  function Validate(tweets: map<int, Tweet>, data: CommentData): (r: Result<CommentData, ValidationError>)
    ensures r.Ok? <==> data.tweetId in tweets
    ensures r.Ok? ==> r.value == data
    ensures r.Err? ==> r.error == ValidationError("message", "tweet does not exist.")
  {
    if data.tweetId !in tweets then Err(ValidationError("message", "tweet does not exist.")) else Ok(data)
  }

  /** `is_valid()` of the create serializer: field errors first, then `validate`. */
  function IsValid(tweets: map<int, Tweet>, data: CommentData): (r: Result<CommentData, seq<ValidationError>>)
    ensures r.Ok? <==> 0 < |data.content| <= 140 && data.tweetId in tweets
    ensures r.Ok? ==> r.value == data
  {
    var fieldErrors := ContentFieldErrors(data.content);
    if fieldErrors != [] then Err(fieldErrors)
    else match Validate(tweets, data)
      case Ok(d) => Ok(d)
      case Err(e) => Err([e])
  }

  /** A 141-character comment is refused, whatever the tweet. */
  lemma TooLongCommentRefused(tweets: map<int, Tweet>, tweetId: int, content: string)
    requires |content| == 141
    ensures IsValid(tweets, CommentData(tweetId, content)).Err?
  {
  }

  /** `CommentSerializerForCreate.create` with the comment's save hook: a new row with the requesting
      user, the given tweet and content, then one more on that tweet's `comments_count`. */
  method Create(db: Database, data: CommentData, userId: int) returns (commentId: int)
    requires db.Valid()
    requires IsValid(db.tweets, data).Ok?
    modifies db`comments, db`nextId, db`tweets
    ensures db.Valid()
    ensures commentId !in old(db.comments)
    ensures db.comments == old(db.comments)[commentId := Comment(userId, data.tweetId, data.content, 0)]
    ensures db.tweets == BumpCommentsCount(old(db.tweets), data.tweetId, 1)
    ensures CommentsCountsExact(old(db.tweets), old(db.comments)) ==> CommentsCountsExact(db.tweets, db.comments)
  {
    commentId := db.NewId();
    var comment := Comment(userId, data.tweetId, data.content, 0);
    if CommentsCountsExact(db.tweets, db.comments) {
      CommentListeners.InsertWithIncrKeepsCountsExact(db.tweets, db.comments, commentId, comment);
    }
    db.comments := db.comments[commentId := comment];
    IncrCommentsCount(db, comment, true);
  }

  /** `CommentSerializerForUpdate.update`: only `content` changes; the save hook runs with
      `created` false, so no counter moves. */
  method Update(db: Database, commentId: int, content: string) returns (comment: Comment)
    requires commentId in db.comments
    requires ContentFieldErrors(content) == []
    modifies db`comments, db`tweets
    ensures comment == old(db.comments[commentId]).(content := content)
    ensures comment.userId == old(db.comments[commentId]).userId && comment.tweetId == old(db.comments[commentId]).tweetId
    ensures db.comments == old(db.comments)[commentId := comment]
    ensures db.tweets == old(db.tweets)
  {
    comment := db.comments[commentId].(content := content);
    db.comments := db.comments[commentId := comment];
    IncrCommentsCount(db, comment, false);
  }

  /** An update keeps the comment counts exact: no comment changes its tweet. */
  lemma UpdateKeepsCountsExact(tweets: map<int, Tweet>, comments: map<int, Comment>, commentId: int, content: string)
    requires commentId in comments
    requires CommentsCountsExact(tweets, comments)
    ensures CommentsCountsExact(tweets, comments[commentId := comments[commentId].(content := content)])
  {
    var comments' := comments[commentId := comments[commentId].(content := content)];
    forall t | t in tweets ensures CommentsOn(comments', t) == CommentsOn(comments, t) {
      forall x ensures x in CommentsOn(comments', t) <==> x in CommentsOn(comments, t) {
        if x != commentId {
          assert x in comments' <==> x in comments;
        }
      }
    }
  }

  /** `CommentSerializer.get_likes_count`, with `draw` the value of `randint(0, 999)` and
      `cachedCount` what `RedisHelper.get_count` returns. On a zero draw the real count is returned
      and written back when the stored one differs (the save hook then changes nothing); on any
      other draw the cached value is returned and nothing changes. */
  method GetLikesCount(db: Database, commentId: int, draw: int, cachedCount: int) returns (likesCount: int)
    requires commentId in db.comments
    requires 0 <= draw <= 999
    modifies db`comments, db`tweets
    ensures db.tweets == old(db.tweets)
    ensures draw != 0 ==> likesCount == cachedCount && db.comments == old(db.comments)
    ensures draw == 0 ==> likesCount == LikeCount(db.likes, CommentKind, commentId)
    ensures draw == 0 && old(db.comments[commentId]).likesCount == likesCount ==> db.comments == old(db.comments)
    ensures draw == 0 ==>
      db.comments == old(db.comments)[commentId := old(db.comments[commentId]).(likesCount := likesCount)]
  {
    if draw == 0 {
      var actualLikesCount := LikeCount(db.likes, CommentKind, commentId);
      var obj := db.comments[commentId];
      if obj.likesCount != actualLikesCount {
        obj := obj.(likesCount := actualLikesCount);
        db.comments := db.comments[commentId := obj];
        IncrCommentsCount(db, obj, false);
      }
      return actualLikesCount;
    }
    return cachedCount;
  }

  /** A zero draw repairs a drifted counter: afterwards the comment's stored count is exact, and the
      counters that were exact stay exact. */
  lemma ReconcileRepairsCounter(tweets: map<int, Tweet>, comments: map<int, Comment>, likes: seq<Like>, commentId: int)
    requires commentId in comments
    requires forall c :: c in comments && c != commentId ==> comments[c].likesCount == LikeCount(likes, CommentKind, c)
    requires forall t :: t in tweets ==> tweets[t].likesCount == LikeCount(likes, TweetKind, t)
    ensures LikesCountsExact(tweets, comments[commentId := comments[commentId].(likesCount := LikeCount(likes, CommentKind, commentId))], likes)
  {
  }
}
