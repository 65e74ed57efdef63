/**
 * The tweet serializers of tweets/api/serializers.py: the create validator
 * (content length, photo upload limit), the insert of a tweet and its photos,
 * and the photo URLs of a tweet in `order`.
 */
module TweetSerializers {
  import opened Wrappers
  import opened Strings
  import opened Models
  import opened Fields

  /** The request data: `content`, and `files` when the request has that key. */
  datatype TweetData = TweetData(content: string, files: Option<seq<string>>)

  /** `len(data.get('files', []))`. */
  function FileCount(files: Option<seq<string>>): nat {
    if files.Some? then |files.value| else 0
  }

  /** `validate`: more files than `photoLimit` (`TWEET_PHOTO_UPLOAD_LIMIT`) are refused. */
  function Validate(data: TweetData, photoLimit: nat): (r: Result<TweetData, ValidationError>)
    ensures r.Ok? <==> FileCount(data.files) <= photoLimit
    ensures r.Ok? ==> r.value == data
    ensures r.Err? ==>
      r.error == ValidationError("message", "You can only upload " + NatToString(photoLimit) + " photos at most.")
  {
    if FileCount(data.files) > photoLimit then
      Err(ValidationError("message", "You can only upload " + NatToString(photoLimit) + " photos at most."))
    else
      Ok(data)
  }

  /** `is_valid()` of `TweetSerializerForCreate`: the `content` field (6 to 140 characters) first,
      then `validate`. */
  function IsValid(data: TweetData, photoLimit: nat): (r: Result<TweetData, seq<ValidationError>>)
    ensures r.Ok? ==> r.value == data
  {
    var fieldErrors := CharFieldErrors("content", data.content, 6, Some(140));
    if fieldErrors != [] then Err(fieldErrors)
    else match Validate(data, photoLimit)
      case Ok(d) => Ok(d)
      case Err(e) => Err([e])
  }

  /** A tweet is accepted exactly when its content has 6 to 140 characters and it carries at most
      `photoLimit` files, a request without `files` counting as none. */
  lemma AcceptedExactly(data: TweetData, photoLimit: nat)
    ensures IsValid(data, photoLimit).Ok? <==> 6 <= |data.content| <= 140 && FileCount(data.files) <= photoLimit
    ensures data.files.None? ==> (IsValid(data, photoLimit).Ok? <==> 6 <= |data.content| <= 140)
  {
  }

  /** With a limit of at least 2 and below 10, two files go through and ten are refused. */
  lemma UploadLimitExamples(content: string, two: seq<string>, ten: seq<string>, photoLimit: nat)
    requires 6 <= |content| <= 140 && |two| == 2 && |ten| == 10 && 2 <= photoLimit < 10
    ensures IsValid(TweetData(content, Some(two)), photoLimit).Ok?
    ensures IsValid(TweetData(content, Some(ten)), photoLimit).Err?
  {
  }

  /** The photos `TweetService.create_photos_from_files` makes: one per file, `order` its index. */
  function PhotosFor(tweetId: int, userId: int, files: seq<string>): (photos: seq<TweetPhoto>)
    ensures |photos| == |files|
    ensures forall i :: 0 <= i < |files| ==> photos[i] == TweetPhoto(tweetId, userId, files[i], i)
  {
    seq(|files|, i requires 0 <= i < |files| => TweetPhoto(tweetId, userId, files[i], i))
  }

  /** `create`: a tweet by the requesting user with the given content, created now with zero
      counters; photos only when the request has a `files` key. */
  method Create(db: Database, userId: int, data: TweetData, now: int) returns (tweetId: int)
    requires db.Valid()
    modifies db`tweets, db`photos, db`nextId
    ensures db.Valid()
    ensures tweetId !in old(db.tweets)
    ensures db.tweets == old(db.tweets)[tweetId := Tweet(userId, data.content, now, 0, 0)]
    ensures db.photos == old(db.photos) + (if data.files.Some? then PhotosFor(tweetId, userId, data.files.value) else [])
  {
    tweetId := db.NewId();
    db.tweets := db.tweets[tweetId := Tweet(userId, data.content, now, 0, 0)];
    if data.files.Some? {
      db.photos := db.photos + PhotosFor(tweetId, userId, data.files.value);
    }
  }

  /** `TweetPhoto.objects.filter(tweet=tweetId)`, in table order. */
  function PhotosOf(photos: seq<TweetPhoto>, tweetId: int): seq<TweetPhoto> {
    if |photos| == 0 then []
    else (if photos[0].tweetId == tweetId then [photos[0]] else []) + PhotosOf(photos[1..], tweetId)
  }

  predicate SortedByOrder(photos: seq<TweetPhoto>) {
    forall i, j :: 0 <= i < j < |photos| ==> photos[i].order <= photos[j].order
  }

  /** Puts `p` before the first photo of `sorted` with an order not below its own. */
  function Insert(p: TweetPhoto, sorted: seq<TweetPhoto>): seq<TweetPhoto> {
    if |sorted| == 0 || p.order <= sorted[0].order then [p] + sorted
    else [sorted[0]] + Insert(p, sorted[1..])
  }

  /** `order_by('order')`. */
  function SortByOrder(photos: seq<TweetPhoto>): seq<TweetPhoto> {
    if |photos| == 0 then [] else Insert(photos[0], SortByOrder(photos[1..]))
  }

  /** Inserting adds exactly `p` to the photos. */
  lemma {:induction false} InsertPerm(p: TweetPhoto, sorted: seq<TweetPhoto>)
    ensures multiset(Insert(p, sorted)) == multiset(sorted) + multiset{p}
    decreases |sorted|
  {
    if |sorted| > 0 && p.order > sorted[0].order {
      InsertPerm(p, sorted[1..]);
      assert sorted == [sorted[0]] + sorted[1..];
    }
  }

  /** The inserted list is one longer and starts with `p` or with the old head. */
  lemma {:induction false} InsertHead(p: TweetPhoto, sorted: seq<TweetPhoto>)
    ensures |Insert(p, sorted)| == |sorted| + 1
    ensures Insert(p, sorted)[0] == p || Insert(p, sorted)[0] == sorted[0]
    decreases |sorted|
  {
    if |sorted| > 0 && p.order > sorted[0].order {
      InsertHead(p, sorted[1..]);
    }
  }

  /** Inserting into photos sorted by `order` keeps them sorted. */
  lemma {:induction false} InsertSorted(p: TweetPhoto, sorted: seq<TweetPhoto>)
    requires SortedByOrder(sorted)
    ensures SortedByOrder(Insert(p, sorted))
    decreases |sorted|
  {
    if |sorted| > 0 && p.order > sorted[0].order {
      var rest := Insert(p, sorted[1..]);
      InsertSorted(p, sorted[1..]);
      InsertHead(p, sorted[1..]);
      assert sorted[0].order <= rest[0].order by {
        if rest[0] != p {
          assert rest[0] == sorted[1];
        }
      }
      var r := [sorted[0]] + rest;
      assert Insert(p, sorted) == r;
      forall i, j | 0 <= i < j < |r| ensures r[i].order <= r[j].order {
        if i == 0 {
          assert r[j] == rest[j - 1];
          if j > 1 {
            assert rest[0].order <= rest[j - 1].order;
          }
        } else {
          assert r[i] == rest[i - 1] && r[j] == rest[j - 1];
        }
      }
    }
  }

  /** The photos come out ordered by `order`, and they are the same photos. */
  lemma {:induction false} SortByOrderSortedPerm(photos: seq<TweetPhoto>)
    ensures SortedByOrder(SortByOrder(photos))
    ensures multiset(SortByOrder(photos)) == multiset(photos)
    decreases |photos|
  {
    if |photos| > 0 {
      SortByOrderSortedPerm(photos[1..]);
      InsertSorted(photos[0], SortByOrder(photos[1..]));
      InsertPerm(photos[0], SortByOrder(photos[1..]));
      assert photos == [photos[0]] + photos[1..];
    }
  }

  /** Photos that are already in `order` keep their places. */
  lemma {:induction false} SortByOrderOfSorted(photos: seq<TweetPhoto>)
    requires SortedByOrder(photos)
    ensures SortByOrder(photos) == photos
    decreases |photos|
  {
    if |photos| > 0 {
      SortByOrderOfSorted(photos[1..]);
      assert photos == [photos[0]] + photos[1..];
    }
  }

  function Files(photos: seq<TweetPhoto>): (files: seq<string>)
    ensures |files| == |photos|
    ensures forall i :: 0 <= i < |photos| ==> files[i] == photos[i].file
  {
    seq(|photos|, i requires 0 <= i < |photos| => photos[i].file)
  }

  /** `get_photo_urls`: the tweet's photos ordered by `order`, as URLs (a photo's file name). */
  function PhotoUrls(photos: seq<TweetPhoto>, tweetId: int): seq<string> {
    Files(SortByOrder(PhotosOf(photos, tweetId)))
  }

  lemma {:induction false} PhotosOfAppend(a: seq<TweetPhoto>, b: seq<TweetPhoto>, tweetId: int)
    ensures PhotosOf(a + b, tweetId) == PhotosOf(a, tweetId) + PhotosOf(b, tweetId)
    decreases |a|
  {
    if |a| > 0 {
      var head := if a[0].tweetId == tweetId then [a[0]] else [];
      assert (a + b)[0] == a[0];
      assert (a + b)[1..] == a[1..] + b;
      assert PhotosOf(a + b, tweetId) == head + PhotosOf(a[1..] + b, tweetId);
      PhotosOfAppend(a[1..], b, tweetId);
      assert PhotosOf(a, tweetId) == head + PhotosOf(a[1..], tweetId);
    } else {
      assert a + b == b;
    }
  }

  lemma {:induction false} PhotosOfAll(photos: seq<TweetPhoto>, tweetId: int)
    requires forall i :: 0 <= i < |photos| ==> photos[i].tweetId == tweetId
    ensures PhotosOf(photos, tweetId) == photos
    decreases |photos|
  {
    if |photos| > 0 {
      PhotosOfAll(photos[1..], tweetId);
      assert photos == [photos[0]] + photos[1..];
    }
  }

  lemma {:induction false} PhotosOfNone(photos: seq<TweetPhoto>, tweetId: int)
    requires forall i :: 0 <= i < |photos| ==> photos[i].tweetId != tweetId
    ensures PhotosOf(photos, tweetId) == []
    decreases |photos|
  {
    if |photos| > 0 {
      PhotosOfNone(photos[1..], tweetId);
    }
  }

  /** The URLs of a freshly created tweet list its files in upload order. */
  lemma CreatedPhotosReadBackInFileOrder(photos: seq<TweetPhoto>, tweetId: int, userId: int, files: seq<string>)
    requires forall i :: 0 <= i < |photos| ==> photos[i].tweetId != tweetId
    ensures PhotoUrls(photos + PhotosFor(tweetId, userId, files), tweetId) == files
  {
    var created := PhotosFor(tweetId, userId, files);
    PhotosOfAppend(photos, created, tweetId);
    PhotosOfNone(photos, tweetId);
    PhotosOfAll(created, tweetId);
    assert [] + created == created;
    SortByOrderOfSorted(created);
  }
}
