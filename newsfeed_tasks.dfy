/**
 * The asynchronous fan-out of newsfeeds/tasks.py.
 *
 * The main task writes the author's own row, cuts the follower ids into
 * contiguous batches of `batchSize` (`FANOUT_BATCH_SIZE`) and schedules one
 * batch task per slice; a batch task bulk-creates one row per follower and,
 * since a bulk insert fires no save hook, pushes each row into its owner's
 * Redis list itself. Scheduling (`.delay`) appends to a queue of pending
 * tasks; running them is the worker's business and is not modelled.
 */
module NewsfeedTasks {
  import opened Models
  import opened Strings
  import opened RedisHelper
  import opened NewsfeedService
  import opened Arith

  /** `fanout_newsfeeds_batch_task.delay(tweet_id, batch_ids)`. */
  datatype BatchTask = BatchTask(tweetId: int, followerIds: seq<int>)

  /** The Celery queue the batch tasks are sent to. */
  class TaskQueue {
    var pending: seq<BatchTask>

    constructor ()
      ensures pending == []
    {
      pending := [];
    }
  }

  function Min(a: int, b: int): int {
    if a <= b then a else b
  }

  /** The slices `ids[index : index + b]`, `ids[index + b : index + 2b]`, ... the loop schedules
      from `index` on. */
  function BatchesFrom(ids: seq<int>, index: nat, b: nat): seq<seq<int>>
    requires b > 0
    decreases |ids| - index
  {
    if index >= |ids| then []
    else [ids[index..Min(index + b, |ids|)]] + BatchesFrom(ids, index + b, b)
  }

  function Batches(ids: seq<int>, b: nat): seq<seq<int>>
    requires b > 0
  {
    BatchesFrom(ids, 0, b)
  }

  function Flatten(bs: seq<seq<int>>): seq<int> {
    if |bs| == 0 then [] else bs[0] + Flatten(bs[1..])
  }

  function TasksFor(tweetId: int, bs: seq<seq<int>>): (tasks: seq<BatchTask>)
    ensures |tasks| == |bs|
    ensures forall i :: 0 <= i < |bs| ==> tasks[i] == BatchTask(tweetId, bs[i])
  {
    if |bs| == 0 then [] else [BatchTask(tweetId, bs[0])] + TasksFor(tweetId, bs[1..])
  }

  /** Scheduling the batch at `index` after `pending` leaves the batches from `index + b` still to
      schedule. */
  lemma ScheduleOneBatch(pending: seq<BatchTask>, tweetId: int, ids: seq<int>, index: nat, b: nat)
    requires b > 0 && index < |ids|
    ensures (pending + [BatchTask(tweetId, ids[index..Min(index + b, |ids|)])]) + TasksFor(tweetId, BatchesFrom(ids, index + b, b))
         == pending + TasksFor(tweetId, BatchesFrom(ids, index, b))
  {
    var rest := BatchesFrom(ids, index + b, b);
    var bs := [ids[index..Min(index + b, |ids|)]] + rest;
    assert BatchesFrom(ids, index, b) == bs;
    assert bs[1..] == rest;
  }

  lemma {:induction false} FlattenBatchesFrom(ids: seq<int>, index: nat, b: nat)
    requires b > 0
    ensures Flatten(BatchesFrom(ids, index, b)) == ids[Min(index, |ids|)..]
    decreases |ids| - index
  {
    if index < |ids| {
      FlattenBatchesFrom(ids, index + b, b);
      var rest := BatchesFrom(ids, index + b, b);
      assert BatchesFrom(ids, index, b) == [ids[index..Min(index + b, |ids|)]] + rest;
      assert ids[index..] == ids[index..Min(index + b, |ids|)] + ids[Min(index + b, |ids|)..];
    }
  }

  /** Concatenated in order, the scheduled batches are exactly the follower ids. */
  lemma BatchesConcatenate(ids: seq<int>, b: nat)
    requires b > 0
    ensures Flatten(Batches(ids, b)) == ids
  {
    FlattenBatchesFrom(ids, 0, b);
  }

  /** Every batch is non-empty and holds at most `b` ids; only the last may hold fewer. */
  ghost predicate WellCut(bs: seq<seq<int>>, b: nat) {
    forall j :: 0 <= j < |bs| ==> 0 < |bs[j]| <= b && (j < |bs| - 1 ==> |bs[j]| == b)
  }

  lemma {:induction false} BatchesFromShape(ids: seq<int>, index: nat, b: nat)
    requires b > 0
    ensures WellCut(BatchesFrom(ids, index, b), b)
    decreases |ids| - index
  {
    if index < |ids| {
      BatchesFromShape(ids, index + b, b);
      var head := ids[index..Min(index + b, |ids|)];
      var rest := BatchesFrom(ids, index + b, b);
      var bs := BatchesFrom(ids, index, b);
      assert bs == [head] + rest;
      assert 0 < |head| <= b;
      assert |rest| > 0 ==> index + b < |ids|;
      forall j | 0 <= j < |bs|
        ensures 0 < |bs[j]| <= b && (j < |bs| - 1 ==> |bs[j]| == b)
      {
        if j > 0 {
          assert bs[j] == rest[j - 1];
        }
      }
    }
  }

  lemma BatchesShape(ids: seq<int>, b: nat)
    requires b > 0
    ensures WellCut(Batches(ids, b), b)
  {
    BatchesFromShape(ids, 0, b);
  }

  lemma {:induction false} BatchesFromCount(ids: seq<int>, index: nat, b: nat)
    requires b > 0 && index <= |ids|
    ensures |BatchesFrom(ids, index, b)| == (|ids| - index - 1) / b + 1
    decreases |ids| - index
  {
    var n := |ids| - index;
    if n == 0 {
      DivUnique(-1, b, -1, b - 1);
    } else if n <= b {
      DivUnique(n - 1, b, 0, n - 1);
    } else {
      BatchesFromCount(ids, index + b, b);
      var q, r := (n - b - 1) / b, (n - b - 1) % b;
      DivUnique(n - 1, b, q + 1, r);
    }
  }

  /** The count the main task reports, `(n - 1) // B + 1` (Python's floor division and Dafny's
      Euclidean one agree for a positive divisor), is the number of batches scheduled: ceil(n / B),
      and 0 for no followers. */
  lemma BatchCountReported(ids: seq<int>, b: nat)
    requires b > 0
    ensures |Batches(ids, b)| == (|ids| - 1) / b + 1
    ensures |ids| == 0 <==> |Batches(ids, b)| == 0
  {
    BatchesFromCount(ids, 0, b);
  }

  /** With the testing batch size 3: one follower gives one batch, three give one, four give two. */
  lemma BatchCountExamples(ids1: seq<int>, ids3: seq<int>, ids4: seq<int>)
    requires |ids1| == 1 && |ids3| == 3 && |ids4| == 4
    ensures |Batches(ids1, 3)| == 1 && |Batches(ids3, 3)| == 1 && |Batches(ids4, 3)| == 2
  {
    BatchCountReported(ids1, 3);
    BatchCountReported(ids3, 3);
    BatchCountReported(ids4, 3);
  }

  /** The string the main task returns. */
  function MainTaskMessage(followerCount: nat, b: nat): string
    requires b > 0
  {
    NatToString(followerCount) + " newsfeeds will be fanned out, "
    + IntToString((followerCount - 1) / b + 1) + " batches are created"
  }

  /** With the testing batch size 3, the counts printed for 1, 3 and 4 followers. */
  lemma MainTaskMessageExamples()
    ensures MainTaskMessage(1, 3) == "1" + " newsfeeds will be fanned out, " + "1" + " batches are created"
    ensures MainTaskMessage(3, 3) == "3" + " newsfeeds will be fanned out, " + "1" + " batches are created"
    ensures MainTaskMessage(4, 3) == "4" + " newsfeeds will be fanned out, " + "2" + " batches are created"
  {
    assert (1 - 1) / 3 + 1 == 1 && (3 - 1) / 3 + 1 == 1 && (4 - 1) / 3 + 1 == 2;
    assert NatToString(1) == IntToString(1) == "1";
    assert NatToString(2) == IntToString(2) == "2";
    assert NatToString(3) == "3" && NatToString(4) == "4";
  }

  /** The main task's loop: `batch_ids = follower_ids[index:index + batch_size]`, one `.delay` per
      slice, `index` advancing by `batch_size` until it passes the end. */
  method ScheduleBatches(queue: TaskQueue, tweetId: int, ids: seq<int>, b: nat)
    requires b > 0
    modifies queue
    ensures queue.pending == old(queue.pending) + TasksFor(tweetId, Batches(ids, b))
  {
    var index: nat := 0;
    while index < |ids|
      invariant queue.pending + TasksFor(tweetId, BatchesFrom(ids, index, b))
             == old(queue.pending) + TasksFor(tweetId, Batches(ids, b))
      decreases |ids| - index
    {
      var batchIds := ids[index..Min(index + b, |ids|)];
      ScheduleOneBatch(queue.pending, tweetId, ids, index, b);
      queue.pending := queue.pending + [BatchTask(tweetId, batchIds)];
      index := index + b;
    }
  }

  /** `fanout_newsfeeds_main_task(tweet_id, tweet_user_id)`, with `followerIds` the result of
      `FriendshipService.get_follower_ids` (not among the files modelled). The author's row is
      created, and pushed by its save hook, before any batch is scheduled; then one batch task per
      slice of `batchSize` ids is queued, in order. */
  method FanoutNewsfeedsMainTask(
    db: Database, redis: ListStore<int, NewsFeed>, queue: TaskQueue,
    tweetId: int, tweetUserId: int, followerIds: seq<int>, batchSize: nat)
    returns (msg: string)
    requires batchSize > 0 && redis.Valid()
    modifies db`newsfeeds, redis, queue
    ensures redis.Valid()
    ensures db.newsfeeds == old(db.newsfeeds) + [NewsFeed(tweetUserId, tweetId)]
    ensures redis.lists == PushState(old(redis.lists), tweetUserId, NewsFeed(tweetUserId, tweetId),
                                     FeedsOf(db.newsfeeds, tweetUserId), redis.limit)
    ensures queue.pending == old(queue.pending) + TasksFor(tweetId, Batches(followerIds, batchSize))
    ensures msg == MainTaskMessage(|followerIds|, batchSize)
  {
    var feed := NewsFeed(tweetUserId, tweetId);
    db.newsfeeds := db.newsfeeds + [feed];
    PushNewsfeedToRedis(redis, db, feed);
    ScheduleBatches(queue, tweetId, followerIds, batchSize);
    msg := MainTaskMessage(|followerIds|, batchSize);
  }

  /** The Redis store after pushing `feeds` one by one, in order, each into its owner's list. */
  function PushFeeds(store: Store<int, NewsFeed>, feeds: seq<NewsFeed>, rows: seq<NewsFeed>, limit: nat): Store<int, NewsFeed>
    requires limit > 0
    decreases |feeds|
  {
    if |feeds| == 0 then store
    else
      var last := feeds[|feeds| - 1];
      PushState(PushFeeds(store, feeds[..|feeds| - 1], rows, limit), last.userId, last, FeedsOf(rows, last.userId), limit)
  }

  /** `fanout_newsfeeds_batch_task(tweet_id, follower_ids)`: one row per follower, in the given
      order, all referencing the tweet, in one bulk insert; then an explicit push of each row. */
  method FanoutNewsfeedsBatchTask(db: Database, redis: ListStore<int, NewsFeed>, tweetId: int, followerIds: seq<int>)
    returns (msg: string)
    requires redis.Valid()
    modifies db`newsfeeds, redis
    ensures redis.Valid()
    ensures db.newsfeeds == old(db.newsfeeds) + FeedsFor(followerIds, tweetId)
    ensures redis.lists == PushFeeds(old(redis.lists), FeedsFor(followerIds, tweetId), db.newsfeeds, redis.limit)
    ensures msg == NatToString(|followerIds|) + " newsfeeds are created."
  {
    var newsfeeds := FeedsFor(followerIds, tweetId);
    db.newsfeeds := db.newsfeeds + newsfeeds;
    for i := 0 to |newsfeeds|
      modifies redis
      invariant redis.Valid()
      invariant redis.lists == PushFeeds(old(redis.lists), newsfeeds[..i], db.newsfeeds, redis.limit)
    {
      assert newsfeeds[..i + 1][..i] == newsfeeds[..i];
      PushNewsfeedToRedis(redis, db, newsfeeds[i]);
    }
    assert newsfeeds[..|newsfeeds|] == newsfeeds;
    msg := NatToString(|newsfeeds|) + " newsfeeds are created.";
  }

  /** The user's cached list starts with the row for tweet `t`. */
  ghost predicate HeadIs(s: Store<int, NewsFeed>, x: int, t: int) {
    x in s && |s[x]| > 0 && s[x][0] == Serialize(NewsFeed(x, t))
  }

  /** Pushing `NewsFeed(y, t)` when the user's newest row is that row puts it at the head of the
      user's list, cold or not, and leaves every other list as it was. */
  lemma PushFeedHead(s: Store<int, NewsFeed>, y: int, t: int, query: seq<NewsFeed>, limit: nat)
    requires limit > 0 && |query| > 0 && query[0] == NewsFeed(y, t)
    ensures HeadIs(PushState(s, y, NewsFeed(y, t), query, limit), y, t)
    ensures forall x :: x != y ==> HeadIs(s, x, t) ==> HeadIs(PushState(s, y, NewsFeed(y, t), query, limit), x, t)
  {
    if y !in s {
      ColdHydration(s, y, query, limit);
    } else {
      PushPresentKey(s, y, NewsFeed(y, t), query, limit);
    }
  }

  /** Pushing the first `i` rows is pushing the first `i - 1`, then row `i - 1`. */
  lemma PushFeedsUnfold(store: Store<int, NewsFeed>, feeds: seq<NewsFeed>, rows: seq<NewsFeed>, limit: nat, i: nat)
    requires limit > 0 && 0 < i <= |feeds|
    ensures PushFeeds(store, feeds[..i], rows, limit)
         == PushState(PushFeeds(store, feeds[..i - 1], rows, limit), feeds[i - 1].userId, feeds[i - 1], FeedsOf(rows, feeds[i - 1].userId), limit)
  {
    assert feeds[..i][..i - 1] == feeds[..i - 1];
  }

  /** Every row built for one tweet that belongs to `u` is `u`'s row for that tweet. */
  lemma FeedsForRowsOfUser(ids: seq<int>, tweetId: int, u: int)
    ensures forall f :: f in FeedsFor(ids, tweetId) && f.userId == u ==> f == NewsFeed(u, tweetId)
  {
  }

  /** One push of `y`'s newest row keeps the heads of the earlier followers and adds `y`'s. */
  lemma VisibleStep(before: Store<int, NewsFeed>, ids: seq<int>, i: nat, tweetId: int, query: seq<NewsFeed>, limit: nat)
    requires limit > 0 && 0 < i <= |ids|
    requires |query| > 0 && query[0] == NewsFeed(ids[i - 1], tweetId)
    requires forall x :: x in ids[..i - 1] ==> HeadIs(before, x, tweetId)
    ensures var after := PushState(before, ids[i - 1], NewsFeed(ids[i - 1], tweetId), query, limit);
      forall x :: x in ids[..i] ==> HeadIs(after, x, tweetId)
  {
    var y := ids[i - 1];
    PushFeedHead(before, y, tweetId, query, limit);
    forall x | x in ids[..i] && x != y ensures x in ids[..i - 1] {
      var j :| 0 <= j < i && ids[..i][j] == x;
      assert ids[..i - 1][j] == x;
    }
  }

  /** After the first `i` pushes of a batch, each of those followers' lists starts with the tweet. */
  lemma {:induction false} PushFeedsMakesVisible(
    store: Store<int, NewsFeed>, prefix: seq<NewsFeed>, ids: seq<int>, tweetId: int, limit: nat, i: nat)
    requires limit > 0 && i <= |ids|
    ensures var s := PushFeeds(store, FeedsFor(ids, tweetId)[..i], prefix + FeedsFor(ids, tweetId), limit);
      forall x :: x in ids[..i] ==> HeadIs(s, x, tweetId)
    decreases i
  {
    if i > 0 {
      PushFeedsMakesVisible(store, prefix, ids, tweetId, limit, i - 1);
      var feeds := FeedsFor(ids, tweetId);
      var rows := prefix + feeds;
      var y := ids[i - 1];
      var before := PushFeeds(store, feeds[..i - 1], rows, limit);
      var query := FeedsOf(rows, y);
      assert |query| > 0 && query[0] == NewsFeed(y, tweetId) by {
        assert feeds[i - 1] == NewsFeed(y, tweetId);
        FeedsForRowsOfUser(ids, tweetId, y);
        NewestFeedInSuffix(prefix, feeds, y, tweetId);
      }
      assert PushFeeds(store, feeds[..i], rows, limit) == PushState(before, y, NewsFeed(y, tweetId), query, limit) by {
        PushFeedsUnfold(store, feeds, rows, limit, i);
      }
      VisibleStep(before, ids, i, tweetId, query, limit);
    }
  }

  /** After a batch task, every follower's cached list (hydrated or pushed) starts with the row
      for this tweet, whether or not that list existed before. */
  lemma BatchMakesTweetVisible(store: Store<int, NewsFeed>, prefix: seq<NewsFeed>, ids: seq<int>, tweetId: int, limit: nat)
    requires limit > 0
    ensures var s := PushFeeds(store, FeedsFor(ids, tweetId), prefix + FeedsFor(ids, tweetId), limit);
      forall x :: x in ids ==> HeadIs(s, x, tweetId)
  {
    PushFeedsMakesVisible(store, prefix, ids, tweetId, limit, |ids|);
    assert FeedsFor(ids, tweetId)[..|ids|] == FeedsFor(ids, tweetId);
    assert ids[..|ids|] == ids;
  }

  /** The rows a worker adds by running `tasks` in order. */
  function RunBatches(tasks: seq<BatchTask>): seq<NewsFeed> {
    if |tasks| == 0 then [] else FeedsFor(tasks[0].followerIds, tasks[0].tweetId) + RunBatches(tasks[1..])
  }

  lemma {:induction false} RunBatchesOfOneTweet(tweetId: int, bs: seq<seq<int>>)
    ensures RunBatches(TasksFor(tweetId, bs)) == FeedsFor(Flatten(bs), tweetId)
    decreases |bs|
  {
    if |bs| > 0 {
      RunBatchesOfOneTweet(tweetId, bs[1..]);
      FeedsForAppend(bs[0], Flatten(bs[1..]), tweetId);
    }
  }

  /** Fan-out completeness: the author's row plus the rows of every batch the main task schedules are
      exactly one row per follower, in follower order, after the author's: 1 + n rows in all. */
  lemma FanoutCompleteness(tweetId: int, tweetUserId: int, followerIds: seq<int>, b: nat)
    requires b > 0
    ensures [NewsFeed(tweetUserId, tweetId)] + RunBatches(TasksFor(tweetId, Batches(followerIds, b)))
         == [NewsFeed(tweetUserId, tweetId)] + FeedsFor(followerIds, tweetId)
    ensures |[NewsFeed(tweetUserId, tweetId)] + RunBatches(TasksFor(tweetId, Batches(followerIds, b)))| == 1 + |followerIds|
  {
    RunBatchesOfOneTweet(tweetId, Batches(followerIds, b));
    BatchesConcatenate(followerIds, b);
  }
}
