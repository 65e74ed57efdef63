/**
 * The bounded per-key list cache of utils/redis/redis_helper.py.
 *
 * Redis holds, per key, a list of serialized objects, newest first. A read
 * that finds the key returns the stored list; a read that misses hydrates the
 * key from the first `limit` rows of the fallback query and returns the whole
 * query. A push prepends and trims to `limit`, or hydrates when the key is
 * cold. The store is a map from key to list; the connection singleton is left
 * out.
 */
module RedisHelper {

  /** `DjangoModelSerializer.serialize(obj)`: a JSON snapshot of one object. */
  datatype Serialized<T> = Serialized(snapshot: T)

  function Serialize<T>(x: T): Serialized<T> {
    Serialized(x)
  }

  /** `DjangoModelSerializer.deserializer`: gives back the object that was serialized. */
  function Deserialize<T>(s: Serialized<T>): (x: T)
    ensures Serialize(x) == s
  {
    s.snapshot
  }

  function SerializeAll<T>(xs: seq<T>): (r: seq<Serialized<T>>)
    ensures |r| == |xs|
    ensures forall i :: 0 <= i < |xs| ==> r[i] == Serialize(xs[i])
  {
    seq(|xs|, i requires 0 <= i < |xs| => Serialize(xs[i]))
  }

  function DeserializeAll<T>(ss: seq<Serialized<T>>): (r: seq<T>)
    ensures |r| == |ss|
    ensures forall i :: 0 <= i < |ss| ==> r[i] == Deserialize(ss[i])
  {
    seq(|ss|, i requires 0 <= i < |ss| => Deserialize(ss[i]))
  }

  /** Reading back what was written gives the original objects, in order. */
  lemma DeserializeSerializeAll<T>(xs: seq<T>)
    ensures DeserializeAll(SerializeAll(xs)) == xs
  {
  }

  /** Python's slice `q[:limit]`. */
  function Take<T>(q: seq<T>, limit: nat): (r: seq<T>)
    ensures |r| == if |q| <= limit then |q| else limit
    ensures r == q[..|r|]
  {
    if |q| <= limit then q else q[..limit]
  }

  /** The list store: key to list, head first. A key is present only while its list is not empty. */
  type Store<K, T> = map<K, seq<Serialized<T>>>

  function ListAt<K, T>(store: Store<K, T>, key: K): seq<Serialized<T>> {
    if key in store then store[key] else []
  }

  /** `conn.rpush(key, *values)`: append at the tail, creating the key. */
  function RPush<K, T>(store: Store<K, T>, key: K, values: seq<Serialized<T>>): Store<K, T> {
    store[key := ListAt(store, key) + values]
  }

  /** `conn.lpush(key, value)`: prepend at the head, creating the key. */
  function LPush<K, T>(store: Store<K, T>, key: K, value: Serialized<T>): Store<K, T> {
    store[key := [value] + ListAt(store, key)]
  }

  /** `conn.ltrim(key, 0, limit - 1)` for a positive limit: keep the first `limit` elements. */
  function LTrim<K, T>(store: Store<K, T>, key: K, limit: nat): Store<K, T>
    requires limit > 0
  {
    if key in store then store[key := Take(store[key], limit)] else store
  }

  /** The store after `_load_objects_to_cache(key, query)`. */
  function Hydrate<K, T>(store: Store<K, T>, key: K, query: seq<T>, limit: nat): Store<K, T> {
    var serializedList := SerializeAll(Take(query, limit));
    if |serializedList| > 0 then RPush(store, key, serializedList) else store
  }

  /** What `load_objects(key, query)` returns. */
  function LoadResult<K, T>(store: Store<K, T>, key: K, query: seq<T>): seq<T> {
    if key in store then DeserializeAll(store[key]) else query
  }

  /** The store after `load_objects(key, query)`. */
  function LoadState<K, T>(store: Store<K, T>, key: K, query: seq<T>, limit: nat): Store<K, T> {
    if key in store then store else Hydrate(store, key, query, limit)
  }

  /** The store after `push_object(key, obj, query)`. */
  function PushState<K, T>(store: Store<K, T>, key: K, obj: T, query: seq<T>, limit: nat): Store<K, T>
    requires limit > 0
  {
    if key !in store then Hydrate(store, key, query, limit)
    else LTrim(LPush(store, key, Serialize(obj)), key, limit)
  }

  /** Every stored list is non-empty and at most `limit` long. */
  ghost predicate Bounded<K, T>(store: Store<K, T>, limit: nat) {
    forall k :: k in store ==> 0 < |store[k]| <= limit
  }

  /** Cold hydration stores exactly the first min(limit, |query|) rows, serialized, in query order,
      and leaves a key that the query cannot fill absent. */
  lemma ColdHydration<K, T>(store: Store<K, T>, key: K, query: seq<T>, limit: nat)
    requires key !in store
    ensures |query| == 0 || limit == 0 ==> Hydrate(store, key, query, limit) == store
    ensures |query| > 0 && limit > 0 ==>
      Hydrate(store, key, query, limit) == store[key := SerializeAll(Take(query, limit))]
  {
    assert ListAt(store, key) + SerializeAll(Take(query, limit)) == SerializeAll(Take(query, limit));
  }

  /** A push to a present key leaves `[serialize(obj)] + old` cut to `limit`, at most `limit` long,
      with the new object at the head and every other key unchanged. */
  lemma PushPresentKey<K, T>(store: Store<K, T>, key: K, obj: T, query: seq<T>, limit: nat)
    requires limit > 0 && key in store
    ensures var s' := PushState(store, key, obj, query, limit);
      && key in s'
      && s'[key] == Take([Serialize(obj)] + store[key], limit)
      && 0 < |s'[key]| <= limit
      && s'[key][0] == Serialize(obj)
      && forall k :: k != key ==> (k in s' <==> k in store) && (k in store ==> s'[k] == store[k])
  {
  }

  /** A push to a cold key is the hydration a cold load performs: `obj` is not prepended separately,
      and a load right after it returns the first `limit` rows of the query. */
  lemma ColdPushIsColdLoad<K, T>(store: Store<K, T>, key: K, obj: T, query: seq<T>, limit: nat)
    requires limit > 0 && key !in store
    ensures PushState(store, key, obj, query, limit) == LoadState(store, key, query, limit)
    ensures |query| > 0 ==>
      LoadResult(PushState(store, key, obj, query, limit), key, query) == Take(query, limit)
  {
    if |query| > 0 {
      DeserializeSerializeAll(Take(query, limit));
    }
  }

  /** Successive `push_object` calls of `objs` on one key, in order. */
  function PushAll<K, T>(store: Store<K, T>, key: K, objs: seq<T>, query: seq<T>, limit: nat): Store<K, T>
    requires limit > 0
    decreases |objs|
  {
    if |objs| == 0 then store
    else PushAll(PushState(store, key, objs[0], query, limit), key, objs[1..], query, limit)
  }

  function Reverse<T>(xs: seq<T>): (r: seq<T>)
    ensures |r| == |xs|
    ensures forall i :: 0 <= i < |xs| ==> r[i] == xs[|xs| - 1 - i]
  {
    if |xs| == 0 then [] else Reverse(xs[1..]) + [xs[0]]
  }

  /** Pushes read back newest first: while no trimming happens, pushing e1 .. en onto a present key
      leaves [en, .., e1] in front of what was there. */
  lemma {:induction false} PushesReadNewestFirst<K, T>(
    store: Store<K, T>, key: K, objs: seq<T>, query: seq<T>, limit: nat)
    requires limit > 0 && key in store
    requires |store[key]| + |objs| <= limit
    ensures key in PushAll(store, key, objs, query, limit)
    ensures PushAll(store, key, objs, query, limit)[key] == SerializeAll(Reverse(objs)) + store[key]
    decreases |objs|
  {
    if |objs| > 0 {
      var next := PushState(store, key, objs[0], query, limit);
      assert next[key] == [Serialize(objs[0])] + store[key];
      PushesReadNewestFirst(next, key, objs[1..], query, limit);
      assert SerializeAll(Reverse(objs)) == SerializeAll(Reverse(objs[1..])) + [Serialize(objs[0])];
    }
  }

  /** The operations the rest of the system performs on the store. */
  datatype Op<K, T> = Load(key: K, query: seq<T>) | Push(key: K, obj: T, query: seq<T>) | Clear

  function Apply<K, T>(store: Store<K, T>, op: Op<K, T>, limit: nat): Store<K, T>
    requires limit > 0
  {
    match op
    case Load(key, query) => LoadState(store, key, query, limit)
    case Push(key, obj, query) => PushState(store, key, obj, query, limit)
    case Clear => map[]
  }

  function Run<K, T>(store: Store<K, T>, ops: seq<Op<K, T>>, limit: nat): Store<K, T>
    requires limit > 0
    decreases |ops|
  {
    if |ops| == 0 then store else Run(Apply(store, ops[0], limit), ops[1..], limit)
  }

  lemma ApplyKeepsBound<K, T>(store: Store<K, T>, op: Op<K, T>, limit: nat)
    requires limit > 0 && Bounded(store, limit)
    ensures Bounded(Apply(store, op, limit), limit)
  {
  }

  /** The bounded-cache invariant: after any sequence of loads, pushes and clears, every cached
      list is non-empty and at most `limit` long. */
  lemma {:induction false} RunKeepsBound<K, T>(store: Store<K, T>, ops: seq<Op<K, T>>, limit: nat)
    requires limit > 0 && Bounded(store, limit)
    ensures Bounded(Run(store, ops, limit), limit)
    decreases |ops|
  {
    if |ops| > 0 {
      ApplyKeepsBound(store, ops[0], limit);
      RunKeepsBound(Apply(store, ops[0], limit), ops[1..], limit);
    }
  }

  /** `conn.lpush(k, 1); conn.lpush(k, 2)` on an empty store reads back [2, 1]. */
  lemma LPushTwiceReadsNewestFirst<K>(k: K)
    ensures LPush(LPush(map[], k, Serialize(1)), k, Serialize(2))[k] == [Serialize(2), Serialize(1)]
  {
  }

  /** A Redis server holding the lists of the timeline caches. */
  class ListStore<K(==), T> {
    var lists: Store<K, T>
    /** `settings.REDIS_LIST_LENGTH_LIMIT`. */
    const limit: nat

    ghost predicate Valid()
      reads this
    {
      limit > 0 && Bounded(lists, limit)
    }

    constructor (limit: nat)
      requires limit > 0
      ensures Valid() && this.limit == limit && lists == map[]
    {
      this.limit := limit;
      lists := map[];
    }

    /** `RedisClient.clear()`: drops every key. */
    method Clear()
      requires Valid()
      modifies this
      ensures Valid() && lists == map[]
    {
      lists := map[];
    }

    /** `_load_objects_to_cache`: serializes the first `limit` rows of the query in order and
        appends them at the tail of the key when there is at least one. */
    method LoadObjectsToCache(key: K, queryset: seq<T>)
      requires Valid()
      modifies this
      ensures lists == Hydrate(old(lists), key, queryset, limit)
      ensures key !in old(lists) ==> Valid()
    {
      var rows := Take(queryset, limit);
      var serializedList: seq<Serialized<T>> := [];
      for i := 0 to |rows|
        invariant serializedList == SerializeAll(rows[..i])
      {
        serializedList := serializedList + [Serialize(rows[i])];
      }
      assert rows[..|rows|] == rows;
      if |serializedList| > 0 {
        lists := RPush(lists, key, serializedList);
      }
    }

    /** `load_objects`: a hit returns the stored list, deserialized, in stored order, and changes
        nothing; a miss hydrates the key and returns the whole query, not cut to `limit`. */
    method LoadObjects(key: K, queryset: seq<T>) returns (objects: seq<T>)
      requires Valid()
      modifies this
      ensures Valid()
      ensures objects == LoadResult(old(lists), key, queryset)
      ensures lists == LoadState(old(lists), key, queryset, limit)
      ensures key in old(lists) ==> objects == DeserializeAll(old(lists)[key]) && lists == old(lists)
      ensures key !in old(lists) ==> objects == queryset
    {
      if key in lists {
        var serializedList := lists[key];
        objects := [];
        for i := 0 to |serializedList|
          invariant objects == DeserializeAll(serializedList[..i])
        {
          objects := objects + [Deserialize(serializedList[i])];
        }
        assert serializedList[..|serializedList|] == serializedList;
        return;
      }
      LoadObjectsToCache(key, queryset);
      objects := queryset;
    }

    /** `push_object`: on a cold key, the same hydration as a cold load (obj is not pushed on its
        own); on a present key, prepend the serialized obj and trim to `limit`. */
    method PushObject(key: K, obj: T, queryset: seq<T>)
      requires Valid()
      modifies this
      ensures Valid()
      ensures lists == PushState(old(lists), key, obj, queryset, limit)
    {
      if key !in lists {
        LoadObjectsToCache(key, queryset);
        return;
      }
      var serializedData := Serialize(obj);
      lists := LPush(lists, key, serializedData);
      lists := LTrim(lists, key, limit);
    }
  }
}
