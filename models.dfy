/**
 * The rows of the application's tables and the database that holds them.
 * A row's primary key is its key in the table's map; tables that the core
 * only appends to or scans are sequences in insertion order.
 */
module Models {
  import opened Wrappers

  datatype User = User(username: string, email: string, password: string)

  /** One per user (a one-to-one field), so the profile table is keyed by user id. */
  datatype UserProfile = UserProfile(nickname: Option<string>, avatar: Option<string>)

  /** `createdAt` is in microseconds, the resolution of Python's `datetime`. */
  datatype Tweet = Tweet(userId: int, content: string, createdAt: int, likesCount: int, commentsCount: int)

  datatype TweetPhoto = TweetPhoto(tweetId: int, userId: int, file: string, order: int)

  datatype Comment = Comment(userId: int, tweetId: int, content: string, likesCount: int)

  /** The two content types a like can point at. */
  datatype ContentKind = TweetKind | CommentKind

  datatype Like = Like(objectId: int, contentType: ContentKind, userId: int)

  /** `from_user` follows `to_user`. */
  datatype Friendship = Friendship(fromUserId: int, toUserId: int)

  /** One timeline entry: `tweetId` shown in `userId`'s news feed. */
  datatype NewsFeed = NewsFeed(userId: int, tweetId: int)

  datatype Target = TweetTarget(tweetId: int) | CommentTarget(commentId: int)

  /** What `notify.send(actor, recipient=..., verb=..., target=...)` records. */
  datatype Notification = Notification(actorId: int, recipientId: int, verb: string, target: Target)

  class Database {
    var users: map<int, User>
    var profiles: map<int, UserProfile>
    var tweets: map<int, Tweet>
    var photos: seq<TweetPhoto>
    var comments: map<int, Comment>
    var likes: seq<Like>
    var friendships: seq<Friendship>
    var newsfeeds: seq<NewsFeed>
    var notifications: seq<Notification>
    /** The next primary key the database hands out. */
    var nextId: int

    ghost predicate Valid()
      reads this
    {
      && (forall id :: id in users ==> id < nextId)
      && (forall id :: id in tweets ==> id < nextId)
      && (forall id :: id in comments ==> id < nextId)
    }

    constructor ()
      ensures Valid()
      ensures users == map[] && profiles == map[] && tweets == map[] && comments == map[]
      ensures photos == [] && likes == [] && friendships == [] && newsfeeds == [] && notifications == []
    {
      users, profiles, tweets, comments := map[], map[], map[], map[];
      photos, likes, friendships, newsfeeds, notifications := [], [], [], [], [];
      nextId := 1;
    }

    /** The auto-increment primary key of a row about to be inserted. */
    method NewId() returns (id: int)
      requires Valid()
      modifies this`nextId
      ensures Valid()
      ensures id !in users && id !in tweets && id !in comments
      ensures nextId == old(nextId) + 1 && id == old(nextId)
    {
      id := nextId;
      nextId := nextId + 1;
    }
  }
}
