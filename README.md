# Twitter backend core, modelled in Dafny

This project models the core of a Django "twitter" backend and proves properties about the model. The core covers:

- **Bounded Redis list cache.** Each key holds a list of serialized rows, newest first.
  - A read hydrates a cold key from the first `REDIS_LIST_LENGTH_LIMIT` rows of a fallback query.
  - A push prepends the new row and trims the list back to the limit.
- **News-feed fan-out.**
  - The synchronous service writes one row per follower, then the author's own row last.
  - The Celery main task writes the author's row, cuts the followers into batches of `FANOUT_BATCH_SIZE` and queues one batch task per slice.
  - Each batch task bulk-creates one row per follower and pushes each row into that follower's cached list.
- **Memcached cache-aside reads** of users, profiles and following sets, with explicit invalidation.
- **Serializers.** Their field checks, validators and create/update paths for follows, likes, sign-up/login, profiles, tweets and comments.
- **Denormalised counters.** A like moves its target's `likes_count`; a comment moves its tweet's `comments_count`.
- **Inbox notifications.**
- **The `required_param` view decorator.**
- **`Tweet.hours_to_now`.**

How the model represents the system:

- The database is one class, `Models.Database`, with one field per table. Tables keyed by id are maps; tables that are only appended to or scanned are sequences in insertion order.
- The Redis store is the class `RedisHelper.ListStore`; each memcached store is a `Memcached.Cache`.
- The Celery queue is `NewsfeedTasks.TaskQueue`.
- The notification sink is the `notifications` table.
- Signal hooks become explicit calls made right after the write that fires them:
  - a like save runs `incr_likes_count`;
  - a comment save runs `incr_comments_count`;
  - a friendship save invalidates the follower's following set;
  - a user save invalidates the user key;
  - a profile save invalidates the profile key.
- The following are parameters:
  - the clock `now`, in microseconds;
  - the random draw of `get_likes_count`;
  - the value `RedisHelper.get_count` returns;
  - the follower list `get_follower_ids` returns;
  - the batch size, the list limit and the photo upload limit.
- Serialization is the wrapper `Serialized(snapshot)`, so deserializing a serialized row gives the row back by construction.

The specification and the code disagree in two places:

- `tweets/models.py` as shown declares no `likes_count` or `comments_count` on `Tweet`, yet the listeners update both columns. The model follows the code: `Models.Tweet` carries both, as the listeners require.
- `get_key` is documented as using the model's class name. As written it uses the metaclass name, `ModelBase`, for every class. `Memcached.GetKeyAsWritten` models the code as written, and `Memcached.AsWrittenServesOtherClassObject` shows the collision it causes. The cache-aside methods `Memcached.GetObjectThroughMemcached` and `Memcached.InvalidateCachedObject` use the corrected key `Class:id` (see Findings and Left out).

## Model

| member | source | states |
|---|---|---|
| RedisHelper.Deserialize | utils/redis/redis_helper.py:26 | deserializing gives back a value whose serialization is the stored entry |
| RedisHelper.DeserializeSerializeAll | utils/redis/redis_helper.py:23-28 | reading back a serialized list yields the original objects in order |
| RedisHelper.Take | utils/redis/redis_helper.py:12 | the slice `q[:limit]` is the prefix of length min(limit, \|q\|) |
| RedisHelper.ColdHydration | utils/redis/redis_helper.py:9-17 | cold hydration stores exactly the first min(L, \|query\|) rows serialized in query order; an empty query leaves the key absent |
| RedisHelper.PushPresentKey | utils/redis/redis_helper.py:40-42 | a push to a present key stores `[serialize(obj)] + old` cut to L, length in 1..L, obj at the head, every other key unchanged |
| RedisHelper.ColdPushIsColdLoad | utils/redis/redis_helper.py:36-38 | a push to a cold key equals a cold load's hydration (obj not prepended) and a following load returns the first L query rows |
| RedisHelper.Reverse | utils/redis/redis_helper.py:41 | reverse order of a sequence, element by element (the order successive lpushes leave) |
| RedisHelper.PushesReadNewestFirst | utils/redis/redis_helper.py:40-42 | pushing e1..en onto a present key without trimming leaves [en..e1] in front of the old list |
| RedisHelper.ApplyKeepsBound | utils/redis/redis_helper.py:9-42 | one load, push or clear keeps every list non-empty and at most L long |
| RedisHelper.RunKeepsBound | utils/redis/redis_helper.py:9-42 | any sequence of loads, pushes and clears keeps every list non-empty and at most L long |
| RedisHelper.LPushTwiceReadsNewestFirst | utils/redis/tests.py:12-15 | lpush 1 then lpush 2 reads back [2, 1] |
| RedisHelper.ListStore.constructor | utils/redis/redis_helper.py:6 | a fresh store is empty and within its bound |
| RedisHelper.ListStore.Clear | utils/redis/tests.py:17-20 | clearing drops every key |
| RedisHelper.ListStore.LoadObjectsToCache | utils/redis/redis_helper.py:9-17 | the serializing loop appends exactly the first L rows, in order, and only when there is one |
| RedisHelper.ListStore.LoadObjects | utils/redis/redis_helper.py:20-31 | a hit returns the stored list deserialized and changes nothing; a miss hydrates and returns the whole query |
| RedisHelper.ListStore.PushObject | utils/redis/redis_helper.py:34-42 | the new store is the push state (hydrate when cold, else prepend and trim) and stays bounded |
| NewsfeedService.FeedsFor | newsfeeds/services.py:10-13 | one row per id, in order, each referencing the tweet |
| NewsfeedService.FeedsForAppend | newsfeeds/tasks.py:25-28 | building rows distributes over concatenation of id lists |
| NewsfeedService.NewestFeedInSuffix | newsfeeds/tasks.py:29-33 | a user whose only rows in the newest part of the table are the new row sees it as newest |
| NewsfeedService.PushNewsfeedToRedis | newsfeeds/tasks.py:31-33 | a push_object on the owner's list with the owner's rows newest first as fallback |
| NewsfeedService.FanoutToFollowers | newsfeeds/services.py:8-15 | one bulk write: a row per distinct follower, then the author's row last; followers + 1 rows in all |
| NewsfeedService.FanoutReachesEveryFollower | newsfeeds/services.py:9-14 | every user with a friendship to the author, and the author, get a row for the tweet |
| NewsfeedService.FeedsForCount | newsfeeds/services.py:10-13 | over distinct ids each id's row occurs once and no other user's row occurs |
| NewsfeedService.FanoutRowsExactlyOnce | newsfeeds/services.py:8-15 | each follower and the author get exactly one row of the tweet, and nobody else gets one |
| NewsfeedTasks.TaskQueue.constructor | newsfeeds/tasks.py:15 | the queue starts empty |
| NewsfeedTasks.TasksFor | newsfeeds/tasks.py:15 | one queued task per batch, in order, each for the tweet |
| NewsfeedTasks.ScheduleOneBatch | newsfeeds/tasks.py:13-16 | one loop turn queues the slice `ids[index:index+B]` and leaves the slices from index+B to go |
| NewsfeedTasks.FlattenBatchesFrom | newsfeeds/tasks.py:13-16 | the slices from index on concatenate to `ids[index:]` |
| NewsfeedTasks.BatchesConcatenate | newsfeeds/tasks.py:12-16 | concatenated in order the scheduled batches are exactly the follower ids |
| NewsfeedTasks.BatchesFromShape | newsfeeds/tasks.py:13-14 | every slice from index on is non-empty, at most B long, only the last shorter |
| NewsfeedTasks.BatchesShape | newsfeeds/tasks.py:13-14 | every scheduled batch is non-empty with at most B ids, only the last may be shorter |
| NewsfeedTasks.BatchesFromCount | newsfeeds/tasks.py:12-16 | the loop from index schedules `(n - index - 1) // B + 1` slices |
| NewsfeedTasks.BatchCountReported | newsfeeds/tasks.py:18-21 | the reported `(n-1)//B+1` is the number of batches scheduled, and 0 exactly when there are no followers |
| NewsfeedTasks.BatchCountExamples | newsfeeds/tests.py:65-91 | with B = 3, 1, 3 and 4 followers give 1, 1 and 2 batches |
| NewsfeedTasks.MainTaskMessageExamples | newsfeeds/tests.py:65-91 | the main task's messages for 1, 3 and 4 followers with B = 3 |
| NewsfeedTasks.ScheduleBatches | newsfeeds/tasks.py:12-16 | the while loop appends exactly one task per batch slice, in order |
| NewsfeedTasks.FanoutNewsfeedsMainTask | newsfeeds/tasks.py:8-21 | the owner's row is written and pushed before any batch is queued; then the batches; the message reports n and (n-1)//B+1 |
| NewsfeedTasks.FanoutNewsfeedsBatchTask | newsfeeds/tasks.py:24-35 | one row per follower in order, each pushed to its owner's list, message reports the count |
| NewsfeedTasks.PushFeedHead | newsfeeds/tasks.py:31-33 | pushing a user's newest row puts it at the head of that user's list and keeps other heads |
| NewsfeedTasks.PushFeedsMakesVisible | newsfeeds/tasks.py:31-33 | after pushing the first i rows of a batch, those followers' lists start with the tweet |
| NewsfeedTasks.BatchMakesTweetVisible | newsfeeds/tasks.py:29-33 | after a batch task every follower's cached list starts with the tweet |
| NewsfeedTasks.RunBatchesOfOneTweet | newsfeeds/tasks.py:24-29 | running the queued tasks writes rows for the concatenated batches |
| NewsfeedTasks.FanoutCompleteness | newsfeeds/tasks.py:8-29 | the owner's row plus all batch rows are exactly one row per follower after the owner's: 1 + n rows |
| Memcached.Cache.constructor | utils/memcached/memcached_helper.py:4 | a fresh cache is empty |
| Memcached.Cache.Clear | utils/memcached/memcached_helper.py:4 | clearing empties the cache |
| Memcached.GetKeyAsWrittenIgnoresClass | utils/memcached/memcached_helper.py:10-12 | as written the key is the same for every model class |
| Memcached.NoColonInIntToString | utils/memcached/memcached_helper.py:12 | a formatted id holds no ':' |
| Memcached.FirstColon | utils/memcached/memcached_helper.py:12 | in `name:id` the first ':' follows the class name |
| Memcached.GetKeyInjective | utils/memcached/memcached_helper.py:11-12 | the intended `Class:id` key determines both the class and the id |
| Memcached.AsWrittenServesOtherClassObject | utils/memcached/memcached_helper.py:10-23 | with the written key a get of one class returns another class's cached object |
| Memcached.KeyedByClassServesOwnObject | utils/memcached/memcached_helper.py:10-23 | with the intended key a get reads its own class's table |
| Memcached.MissThenHit | utils/memcached/memcached_helper.py:17-23 | after a miss caches a row, the next get is a hit returning it |
| Memcached.GetObjectThroughMemcached | utils/memcached/memcached_helper.py:15-23 | hit returns cached object without the table; miss reads and caches; missing row fails with nothing cached |
| Memcached.InvalidateCachedObject | utils/memcached/memcached_helper.py:26-28 | removes that key only, so the next get misses |
| UserService.GetUserThroughMemcached | accounts/services.py:12-24 | hit returns cached user; miss on a user caches it; unknown id returns None and caches nothing; coherence kept |
| UserService.InvalidateUserCache | accounts/services.py:27-29 | deletes that user's key only |
| UserService.GetProfileThroughMemcached | accounts/services.py:32-41 | hit returns the cached profile; miss get-or-creates the row and caches it; over a coherent cache the row exists afterwards |
| UserService.InvalidateProfileCache | accounts/services.py:44-46 | deletes that profile key only |
| UserService.InvalidateRestoresCoherence | accounts/listeners.py:1-3 | invalidating the one row written restores a coherent user cache |
| FriendshipService.FollowerIdsExact | friendships/services.py:13-17 | followers are exactly the users with a friendship to the user |
| FriendshipService.FollowerIdsDistinct | friendships/services.py:16 | each follower is listed once, even when a friendship row is repeated |
| FriendshipService.FollowingIdsExact | friendships/services.py:32-33 | the following set holds x exactly when a friendship (u, x) exists |
| FriendshipService.GetFollowingUserIdSetThroughMemcached | friendships/services.py:26-36 | hit (an empty set too) returns the cached set; miss computes and caches it; coherent cache gives the table's set |
| FriendshipService.InvalidateFollowingCache | friendships/services.py:39-41 | deletes that user's key only |
| FriendshipService.InvalidateAfterChangeKeepsCoherence | friendships/models.py:40-41 | changing one user's friendships and invalidating that user keeps every cached set equal to the table's |
| FriendshipSerializers.ValidateFollow | friendships/api/serializers.py:57-70 | self-follow refused first, then a duplicate; accepted exactly otherwise, unchanged |
| FriendshipSerializers.ValidatedFollowKeepsTableSound | friendships/api/serializers.py:57-77 | inserting only validated follows keeps pairs unique and nobody following themselves |
| FriendshipSerializers.FollowTwiceRefused | friendships/api/serializers.py:62-68 | a second follow of the same pair is refused as a duplicate |
| FriendshipSerializers.CreateFollow | friendships/api/serializers.py:72-77 | exactly one row added and the follower's following set invalidated, keeping coherence |
| FriendshipSerializers.FollowListSerializer.constructor | friendships/api/serializers.py:8-22 | a serializer starts without a memo |
| FriendshipSerializers.FollowListSerializer.FollowingUserIdSet | friendships/api/serializers.py:10-22 | anonymous viewer gets {}; memo returned when set; otherwise read once and memoised |
| FriendshipSerializers.FollowListSerializer.HasFollowedFollowing | friendships/api/serializers.py:33-34 | true exactly when the signed-in viewer follows the row's to_user |
| FriendshipSerializers.FollowListSerializer.HasFollowedFollower | friendships/api/serializers.py:45-46 | true exactly when the signed-in viewer follows the row's from_user |
| Fields.CharFieldErrors | accounts/api/serializers.py:60-62 | no error exactly when non-blank and within min/max length; at most one error, on the field |
| LikeListeners.ContentClassName | likes/listeners.py:10 | "Comment" / "Tweet" exactly for an existing comment / tweet target |
| LikeListeners.LikeCountAppend | likes/listeners.py:13-19 | like counts add up over concatenated like tables |
| LikeListeners.IncrLikesCount | likes/listeners.py:3-20 | nothing unless created; then +1 on the comment row for a Comment target, else on the tweet row |
| LikeListeners.DecrLikesCount | likes/listeners.py:22-35 | -1 with the same dispatch and no created guard |
| LikeListeners.IncrTouchesOnlyTarget | likes/listeners.py:10-20 | only the row with id object_id moves, by exactly one |
| LikeListeners.MissingTargetFallsToTweetTable | likes/listeners.py:26-35 | a like on a missing comment falls through to the tweet with the same id |
| LikeListeners.IncrThenDecrRestores | likes/listeners.py:3-35 | save then delete of a like restores every counter |
| LikeListeners.InsertWithIncrKeepsCountsExact | likes/listeners.py:3-20 | inserting a like and running its save hook keeps every likes_count exact |
| LikeListeners.DeleteWithDecrKeepsCountsExact | likes/listeners.py:22-35 | deleting a like and running its delete hook keeps every likes_count exact |
| LikeSerializers.GetModelClass | likes/api/serializers.py:26-33 | 'tweet' gives Tweet, 'comment' gives Comment, anything else None |
| LikeSerializers.Validate | likes/api/serializers.py:35-42 | unknown type refused on content_type, missing object on object_id, else accepted unchanged |
| LikeSerializers.ContentTypeFieldErrors | likes/api/serializers.py:19 | the choice field accepts exactly 'tweet' and 'comment' |
| LikeSerializers.IsValid | likes/api/serializers.py:18-42 | accepted exactly when validate accepts; one error, on content_type or object_id |
| LikeSerializers.AcceptedLikeHasTarget | likes/api/serializers.py:35-50 | an accepted like names an existing tweet or comment |
| LikeSerializers.LikeTwiceLeavesOne | likes/api/serializers.py:46-50 | get-or-create is idempotent and leaves the like present |
| LikeSerializers.LikesOfDifferentUsersAreDistinct | likes/api/tests.py:62-66 | likes of two users on one object count two |
| LikeSerializers.LikeCountNone | likes/api/serializers.py:46-50 | an object with no like counts zero |
| LikeSerializers.Create | likes/api/serializers.py:44-52 | get-or-create of (object, type, user); the save hook runs only when created; exact counters stay exact |
| CommentListeners.IncrCommentsCount | comments/listeners.py:4-10 | nothing unless created; then +1 on the comment's tweet |
| CommentListeners.DecrCommentsCount | comments/listeners.py:12-15 | -1 on the comment's tweet, no guard |
| CommentListeners.BumpTouchesOnlyThatTweet | comments/listeners.py:8-15 | only the tweet with id tweet_id moves, by delta; no row appears |
| CommentListeners.CommentsOnInsert | comments/listeners.py:4-10 | a new comment joins only its own tweet's comment set |
| CommentListeners.CommentsOnDelete | comments/listeners.py:12-15 | a deleted comment leaves only its own tweet's comment set |
| CommentListeners.InsertWithIncrKeepsCountsExact | comments/listeners.py:4-10 | inserting a comment and running its save hook keeps every comments_count exact |
| CommentListeners.DeleteWithDecrKeepsCountsExact | comments/listeners.py:12-15 | deleting a comment and running its delete hook keeps every comments_count exact |
| CommentSerializers.ContentFieldErrors | comments/api/serializers.py:48 | content accepted exactly when 1 to 140 characters |
| CommentSerializers.Validate | comments/api/serializers.py:50-57 | refused with 'tweet does not exist.' exactly when the tweet is absent |
| CommentSerializers.IsValid | comments/api/serializers.py:43-57 | accepted exactly with valid content and an existing tweet |
| CommentSerializers.TooLongCommentRefused | comments/api/serializers.py:48 | 141 characters are refused |
| CommentSerializers.Create | comments/api/serializers.py:59-69 | a new row with the user, tweet and content; its tweet's comments_count +1; exact counts kept |
| CommentSerializers.Update | comments/api/serializers.py:78-82 | only content changes; user and tweet kept; no counter moves |
| CommentSerializers.UpdateKeepsCountsExact | comments/api/serializers.py:78-82 | an update keeps every comments_count exact |
| CommentSerializers.GetLikesCount | comments/api/serializers.py:32-40 | draw 0 returns the true count and writes it only if it differs; other draws return the cached value and change nothing |
| CommentSerializers.ReconcileRepairsCounter | comments/api/serializers.py:33-38 | after reconciliation the comment's stored count is exact |
| AccountSerializers.ValidateLogin | accounts/api/serializers.py:50-56 | refused with 'The username does not exist.' exactly when the (ASCII-)lowercased username is unknown |
| AccountSerializers.LoginIsValid | accounts/api/serializers.py:46-56 | accepted exactly with non-blank fields and a known lowercased username |
| AccountSerializers.SignupFieldErrors | accounts/api/serializers.py:60-62 | no field error exactly when username and password have 6 to 20 characters and email is not blank |
| AccountSerializers.ValidateSignup | accounts/api/serializers.py:68-78 | taken username refused before taken email, compared (ASCII-)lowercased, with their messages; accepted otherwise |
| AccountSerializers.SignupIsValid | accounts/api/serializers.py:59-78 | accepted exactly when the fields pass and validate accepts |
| AccountSerializers.AcceptedSignupBounds | accounts/api/serializers.py:59-78 | an accepted signup has lengths in [6, 20] and a fresh lowercased username and email |
| AccountSerializers.CreateUser | accounts/api/serializers.py:80-91 | stores lowercased username and email and the password; invalidates the user key; the profile exists afterwards |
| AccountSerializers.SignupThenLogin | accounts/api/serializers.py:51-88 | after signup, login with the username in any ASCII case passes |
| AccountSerializers.SignupTwiceRefused | accounts/api/serializers.py:69-88 | a second signup with the same username in any ASCII case is refused on username |
| AccountSerializers.UpdatedProfile | accounts/api/serializers.py:99-104 | a field is overwritten exactly when its new value is not None |
| AccountSerializers.UpdateIdempotent | accounts/api/serializers.py:99-104 | the same update twice equals one; an empty update changes nothing |
| AccountSerializers.UpdateProfile | accounts/api/serializers.py:99-106 | the profile row becomes the updated profile and its cache key is invalidated, keeping coherence |
| TweetSerializers.Validate | tweets/api/serializers.py:58-65 | more than the limit of files refused with the limit in the message; no files count as zero |
| TweetSerializers.IsValid | tweets/api/serializers.py:46-65 | accepted data is returned unchanged |
| TweetSerializers.AcceptedExactly | tweets/api/serializers.py:46-65 | accepted exactly with 6 to 140 characters and at most the limit of files, a missing files key counting as none |
| TweetSerializers.UploadLimitExamples | tweets/api/tests.py:171-182 | two files pass and ten are refused |
| TweetSerializers.PhotosFor | tweets/api/serializers.py:71-75 | one photo per file, order its index |
| TweetSerializers.Create | tweets/api/serializers.py:67-77 | a tweet by the user with the content and zero counters; photos only when files is present |
| TweetSerializers.InsertPerm | tweets/api/serializers.py:42 | inserting adds exactly that photo to the multiset of photos |
| TweetSerializers.InsertHead | tweets/api/serializers.py:42 | the inserted list is one longer and starts with the new photo or the old head |
| TweetSerializers.InsertSorted | tweets/api/serializers.py:42 | inserting into photos sorted by order keeps them sorted |
| TweetSerializers.SortByOrderSortedPerm | tweets/api/serializers.py:42 | `order_by('order')` yields a sorted permutation of the photos |
| TweetSerializers.SortByOrderOfSorted | tweets/api/serializers.py:42 | photos already in order keep their places |
| TweetSerializers.Files | tweets/api/serializers.py:43 | one URL per photo, in order |
| TweetSerializers.PhotosOfAppend | tweets/api/serializers.py:42 | the tweet filter distributes over table concatenation |
| TweetSerializers.PhotosOfAll | tweets/api/serializers.py:42 | the filter keeps a table of the tweet's own photos whole |
| TweetSerializers.PhotosOfNone | tweets/api/serializers.py:42 | the filter drops other tweets' photos |
| TweetSerializers.CreatedPhotosReadBackInFileOrder | tweets/api/serializers.py:41-44 | a new tweet's photo URLs list its files in upload order |
| Inbox.LikeNotificationRule | inbox/services.py:10-29 | self-like notifies nobody; otherwise exactly one notification to the owner with the type's verb and target |
| Inbox.CommentNotificationRule | inbox/services.py:32-43 | self-comment notifies nobody; otherwise exactly one 'comment your tweet' to the owner |
| Inbox.SelfThenOtherLike | inbox/tests.py:19-29 | the owner's like then another user's like leave one notification, to the owner |
| Inbox.SendLikeNotification | inbox/services.py:10-29 | appends the like's notifications and never a self-notification |
| Inbox.SendCommentNotification | inbox/services.py:32-43 | appends the comment's notifications and never a self-notification |
| Decorators.MissingParams | utils/decorators.py:18 | a name is missing exactly when it is required and absent |
| Decorators.MissingParamsAppend | utils/decorators.py:18 | missing names keep the order of params |
| Decorators.NothingPresentAllMissing | utils/decorators.py:18 | with nothing present every param is missing, in order |
| Decorators.RequiredParam | utils/decorators.py:5-27 | the view is called, unchanged, exactly when nothing is missing; otherwise 400, success false and the message 'missing ' + the missing names in declared order joined by ', ' + ' in request.' |
| Decorators.NoParamsNeverRejects | utils/decorators.py:6-7 | params None never rejects |
| Decorators.MethodPicksTheSource | utils/decorators.py:13-16 | GET reads only query params, other methods only the body |
| Decorators.RejectionMessages | utils/decorators.py:19-24 | two examples: a GET without user_id, and a POST lacking content_type and object_id, which are named in that order |
| TweetModel.TimedeltaSeconds | tweets/models.py:24 | `timedelta.seconds` is in [0, 86399] |
| TweetModel.HoursToNow | tweets/models.py:22-24 | always in 0..23, future timestamps included |
| TweetModel.HoursToNowCharacterised | tweets/models.py:24 | days*24h + h hours + under an hour elapsed gives h, whatever the sign of days |
| TweetModel.HoursToNowExamples | tweets/tests.py:14-20 | 10 hours gives 10, 27 hours gives 3, 1 microsecond in the future gives 23 |
| TweetModel.WholeDaysDropped | tweets/models.py:24 | shifting the clock by whole days changes nothing |
| Strings.NatToStringInjective | tweets/api/serializers.py:61 | distinct counts format to distinct decimal strings |
| Strings.IntToStringInjective | utils/memcached/memcached_helper.py:12 | distinct ids format to distinct strings |
| Strings.Lower | accounts/api/serializers.py:81-82 | ASCII lowercasing: A–Z become a–z, every other character is kept, the length is kept |
| Strings.LowerIdempotent | accounts/api/serializers.py:51 | lowercasing a lowercased string changes nothing |
| Models.Database.NewId | tweets/api/serializers.py:70 | a fresh primary key, unused by users, tweets and comments |

## Left out

- `AccountSerializers.CreateUser`: the profile row is guaranteed only when the profile cache held no entry for the new id, or was coherent with the profile table. A stale cached profile under a fresh id would make `user.profile` skip the get-or-create.
- Strings.Lower: case mapping is ASCII-only. Python's `str.lower()` maps all of Unicode and can change the length ('İ' becomes two code points). So signup and login compare non-ASCII usernames and emails case-sensitively here; `create_user`'s NFKC normalisation of the username is not modelled either.
- Memcached.GetObjectThroughMemcached and Memcached.InvalidateCachedObject key by the corrected `Class:id`, not by the written `ModelBase:id`. So the model does not reproduce the source's cross-class hit (a cached `Tweet` 1 returned for `User` 1), nor an invalidation that evicts the shared entry of every class with that id. Both appear only in `Memcached.AsWrittenServesOtherClassObject`.
- The order in which `User.objects.filter(id__in=...)` yields followers is not modelled: `FriendshipService.FollowerIds` lists each follower once, in the order of their first friendship row.
- Password hashing in `create_user` is not modelled: the password is stored as given.
- Parts of the DRF field machinery are not modelled: EmailField format checks, whitespace trimming, "required" errors and FileField checks on each file.
- The HTTP views, routing, permissions and rate limits are not modelled. So the views' calls into the inbox and the fan-out (and which view sends which notification) are not modelled either.
- The Redis connection singleton and its production guard are not modelled; `clear` empties the store.
- `RedisHelper.get_count` is not part of this model; its value is a parameter of `GetLikesCount`.
- `push_newsfeeds_to_redis` is modelled as a `push_object` on the owner's list, with that owner's rows newest first as the fallback query. Its body is not part of this model.
- `get_follower_ids` is a parameter of the main task. `get_followers` is modelled from the shown query.
- `TweetService` is not part of this model. So the push of a new tweet into the author's tweet list is not modelled. `create_photos_from_files` is modelled as one photo per file, with `order` its index.
- The body of friendships/listeners.py is not part of this model. Its hook is modelled as the invalidation of the follower's following set, as `invalidate_following_cache` names.
- Celery execution is not modelled: time limits, routing, retries and concurrent batches. `.delay` appends to a queue.
- Pagination, file storage, photo and avatar URLs are not modelled. A photo's URL is its file name.
- The ORM's ordering is not modelled: queries are taken as already ordered sequences.
- The keys of `USER_PATTERN`, `USER_PROFILE_PATTERN` and `FOLLOWING_PATTERNS` are not part of this model. Each pattern is its own cache, keyed by user id.
- The cancel path that deletes likes is not part of this model. `LikeListeners.MissingTargetFallsToTweetTable` records what the hooks do on a missing target, and the counter lemmas assume an existing target.

## Findings

| source | as written | input that shows it | evidently intended | confidence | as-written member | corrected member |
|---|---|---|---|---|---|---|
| utils/memcached/memcached_helper.py:10-12 | the key uses `model_class.__class__.__name__`, which is `ModelBase` for every model class | cache `Tweet` id 1, then get `User` id 1: both keys are `ModelBase:1`, so the tweet is returned | `Tweet:1`, `User:1` as the comment on line 11 says (`model_class.__name__`) | high, not executed | Memcached.AsWrittenServesOtherClassObject | Memcached.KeyedByClassServesOwnObject |
