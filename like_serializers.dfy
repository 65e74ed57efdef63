/**
 * `LikeSerializerForCreate` of likes/api/serializers.py: the content-type
 * dispatch, the validator, and the get-or-create of a like, followed by the
 * like's save hook when a row was created.
 */
module LikeSerializers {
  import opened Wrappers
  import opened Models
  import opened LikeListeners

  /** The request data: `content_type` and `object_id`. */
  datatype LikeData = LikeData(contentType: string, objectId: int)

  /** `_get_model_class`: 'tweet' and 'comment' name their models, anything else has none. */
  function GetModelClass(contentType: string): (kind: Option<ContentKind>)
    ensures kind == Some(TweetKind) <==> contentType == "tweet"
    ensures kind == Some(CommentKind) <==> contentType == "comment"
    ensures kind.None? <==> contentType != "tweet" && contentType != "comment"
  {
    if contentType == "tweet" then Some(TweetKind)
    else if contentType == "comment" then Some(CommentKind)
    else None
  }

  /** `model_class.objects.filter(id=objectId).exists()`. */
  predicate ObjectExists(tweets: map<int, Tweet>, comments: map<int, Comment>, kind: ContentKind, objectId: int) {
    match kind
    case TweetKind => objectId in tweets
    case CommentKind => objectId in comments
  }

  /** `validate`: an unknown content type is refused on `content_type`, a missing object on
      `object_id`; otherwise the data goes through unchanged. */
  function Validate(tweets: map<int, Tweet>, comments: map<int, Comment>, data: LikeData): (r: Result<LikeData, ValidationError>)
    ensures r.Ok? <==>
      GetModelClass(data.contentType).Some? && ObjectExists(tweets, comments, GetModelClass(data.contentType).value, data.objectId)
    ensures r.Ok? ==> r.value == data
    ensures GetModelClass(data.contentType).None? ==>
      r == Err(ValidationError("content_type", "Content type does not exist"))
    ensures GetModelClass(data.contentType).Some? && !ObjectExists(tweets, comments, GetModelClass(data.contentType).value, data.objectId) ==>
      r == Err(ValidationError("object_id", "Object does not exist"))
  {
    var modelClass := GetModelClass(data.contentType);
    if modelClass.None? then Err(ValidationError("content_type", "Content type does not exist"))
    else if !ObjectExists(tweets, comments, modelClass.value, data.objectId) then Err(ValidationError("object_id", "Object does not exist"))
    else Ok(data)
  }

  /** The field check of `ChoiceField(choices=['tweet', 'comment'])`, which runs before `validate`. */
  function ContentTypeFieldErrors(data: LikeData): (errs: seq<ValidationError>)
    ensures errs == [] <==> GetModelClass(data.contentType).Some?
  {
    if data.contentType == "tweet" || data.contentType == "comment" then []
    else [ValidationError("content_type", "\"" + data.contentType + "\" is not a valid choice.")]
  }

  /** `is_valid()`: the field errors when there are any, else the outcome of `validate`. */
  function IsValid(tweets: map<int, Tweet>, comments: map<int, Comment>, data: LikeData): (r: Result<LikeData, seq<ValidationError>>)
    ensures r.Ok? <==> Validate(tweets, comments, data).Ok?
    ensures r.Err? ==> |r.error| == 1 && r.error[0].field in {"content_type", "object_id"}
  {
    var fieldErrors := ContentTypeFieldErrors(data);
    if fieldErrors != [] then Err(fieldErrors)
    else match Validate(tweets, comments, data)
      case Ok(d) => Ok(d)
      case Err(e) => Err([e])
  }

  /** A data set the serializer accepts names an existing tweet or comment, and liking it cannot
      fall into the `NoneType` branch of the like hooks. */
  lemma AcceptedLikeHasTarget(tweets: map<int, Tweet>, comments: map<int, Comment>, data: LikeData, userId: int)
    requires IsValid(tweets, comments, data).Ok?
    ensures var like := Like(data.objectId, GetModelClass(data.contentType).value, userId);
      ContentClassName(tweets, comments, like) == (if data.contentType == "tweet" then "Tweet" else "Comment")
  {
  }

  /** `Like.objects.get_or_create(...)` on the like table. */
  function GetOrCreate(likes: seq<Like>, like: Like): seq<Like> {
    if like in likes then likes else likes + [like]
  }

  /** Liking twice leaves one like: get-or-create is idempotent. */
  lemma LikeTwiceLeavesOne(likes: seq<Like>, like: Like)
    ensures GetOrCreate(GetOrCreate(likes, like), like) == GetOrCreate(likes, like)
    ensures like in GetOrCreate(likes, like)
  {
  }

  /** Likes of two different users on the same object are two rows. */
  lemma LikesOfDifferentUsersAreDistinct(likes: seq<Like>, kind: ContentKind, objectId: int, u1: int, u2: int)
    requires u1 != u2
    requires forall l :: l in likes ==> !(l.contentType == kind && l.objectId == objectId)
    ensures var likes' := GetOrCreate(GetOrCreate(likes, Like(objectId, kind, u1)), Like(objectId, kind, u2));
      LikeCount(likes', kind, objectId) == 2
  {
    var a, b := Like(objectId, kind, u1), Like(objectId, kind, u2);
    var l1 := likes + [a];
    var l2 := l1 + [b];
    assert GetOrCreate(likes, a) == l1 by {
      assert a !in likes;
    }
    assert GetOrCreate(l1, b) == l2 by {
      assert b !in likes && b != a;
    }
    assert LikeCount(l1, kind, objectId) == 1 by {
      LikeCountNone(likes, kind, objectId);
      assert l1[..|l1| - 1] == likes;
    }
    assert l2[..|l2| - 1] == l1;
  }

  lemma {:induction false} LikeCountNone(likes: seq<Like>, kind: ContentKind, objectId: int)
    requires forall l :: l in likes ==> !(l.contentType == kind && l.objectId == objectId)
    ensures LikeCount(likes, kind, objectId) == 0
    decreases |likes|
  {
    if |likes| > 0 {
      var init := likes[..|likes| - 1];
      assert forall l :: l in init ==> l in likes;
      LikeCountNone(init, kind, objectId);
    }
  }

  /** `create` with the like's save hook: get-or-create of (object, content type, requesting user);
      when a row is created, the hook adds one to the target's `likes_count`. Over exact counters
      the counters stay exact. */
  method Create(db: Database, data: LikeData, userId: int) returns (like: Like, created: bool)
    requires IsValid(db.tweets, db.comments, data).Ok?
    modifies db`likes, db`tweets, db`comments
    ensures like == Like(data.objectId, GetModelClass(data.contentType).value, userId)
    ensures created <==> like !in old(db.likes)
    ensures db.likes == GetOrCreate(old(db.likes), like)
    ensures created ==> (db.tweets, db.comments) == AfterIncr(old(db.tweets), old(db.comments), like)
    ensures !created ==> db.tweets == old(db.tweets) && db.comments == old(db.comments)
    ensures LikesCountsExact(old(db.tweets), old(db.comments), old(db.likes)) ==>
      LikesCountsExact(db.tweets, db.comments, db.likes)
  {
    var modelClass := GetModelClass(data.contentType);
    like := Like(data.objectId, modelClass.value, userId);
    if like in db.likes {
      created := false;
    } else {
      AcceptedLikeHasTarget(db.tweets, db.comments, data, userId);
      if LikesCountsExact(db.tweets, db.comments, db.likes) {
        InsertWithIncrKeepsCountsExact(db.tweets, db.comments, db.likes, like);
      }
      db.likes := db.likes + [like];
      created := true;
    }
    IncrLikesCount(db, like, created);
  }
}
