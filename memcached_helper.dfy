/**
 * The generic cache-aside helper of utils/memcached/memcached_helper.py and
 * the memcached store that it and the services share.
 *
 * `get_key` formats `model_class.__class__.__name__` and the object id. For a
 * Django model class `__class__` is the metaclass `ModelBase`, so every class
 * gets the same prefix and objects of different classes with the same id share
 * one key (GetKeyAsWritten, and AsWrittenServesOtherClassObject for what
 * follows). The helper's methods use the corrected key, the class's own name
 * that the comment on that line intends (GetKey), and so do not reproduce the
 * collision.
 */
module Memcached {
  import opened Wrappers
  import opened Strings

  /** A memcached store: key to cached object. `cache.get` of an absent key is `None`. */
  class Cache<K(==), V> {
    var entries: map<K, V>

    constructor ()
      ensures entries == map[]
    {
      entries := map[];
    }

    /** `caches['testing'].clear()`. */
    method Clear()
      modifies this
      ensures entries == map[]
    {
      entries := map[];
    }
  }

  /** A Django model class; `name` is its `__name__`, a Python identifier. */
  datatype ModelClass = ModelClass(name: string)

  predicate IsClassName(name: string) {
    ':' !in name
  }

  /** `model_class.__class__.__name__`: every model class is an instance of `ModelBase`. */
  function MetaclassName(c: ModelClass): string {
    "ModelBase"
  }

  /** `get_key` as written. */
  function GetKeyAsWritten(c: ModelClass, objectId: int): string {
    MetaclassName(c) + ":" + IntToString(objectId)
  }

  /** As written, the key does not depend on the model class at all. */
  lemma GetKeyAsWrittenIgnoresClass(c1: ModelClass, c2: ModelClass, objectId: int)
    ensures GetKeyAsWritten(c1, objectId) == GetKeyAsWritten(c2, objectId)
  {
  }

  /** `get_key` as its comment describes it: `'Tweet:7'`, `'User:7'`. */
  function GetKey(c: ModelClass, objectId: int): string {
    c.name + ":" + IntToString(objectId)
  }

  lemma NoColonInIntToString(i: int)
    ensures ':' !in IntToString(i)
  {
  }

  /** In `name + ":" + rest`, the first ':' is the one after the class name. */
  lemma FirstColon(name: string, rest: string)
    requires IsClassName(name)
    ensures (name + ":" + rest)[|name|] == ':'
    ensures forall i :: 0 <= i < |name| ==> (name + ":" + rest)[i] != ':'
  {
  }

  /** The intended key tells classes and ids apart. */
  lemma GetKeyInjective(c1: ModelClass, id1: int, c2: ModelClass, id2: int)
    requires IsClassName(c1.name) && IsClassName(c2.name)
    requires GetKey(c1, id1) == GetKey(c2, id2)
    ensures c1 == c2 && id1 == id2
  {
    var k := GetKey(c1, id1);
    var n1, n2 := c1.name, c2.name;
    NoColonInIntToString(id1);
    NoColonInIntToString(id2);
    FirstColon(n1, IntToString(id1));
    FirstColon(n2, IntToString(id2));
    assert |n1| == |n2|;
    assert n1 == k[..|n1|] == n2;
    assert IntToString(id1) == k[|n1| + 1..] == IntToString(id2);
    IntToStringInjective(id1, id2);
  }

  /** `Model.DoesNotExist`, raised by `objects.get` for a missing id. */
  datatype LookupError = DoesNotExist

  /** What a cache-aside get returns: the cached object on a hit, else the row, else the error. */
  function Lookup<V>(entries: map<string, V>, key: string, objects: map<int, V>, objectId: int): Result<V, LookupError> {
    if key in entries then Ok(entries[key])
    else if objectId in objects then Ok(objects[objectId])
    else Err(DoesNotExist)
  }

  /** The cache after a cache-aside get: a miss on an existing row caches it under the key. */
  function LookupState<V>(entries: map<string, V>, key: string, objects: map<int, V>, objectId: int): map<string, V> {
    if key !in entries && objectId in objects then entries[key := objects[objectId]] else entries
  }

  /** As written: once one class's object is cached, a get of another class's object with the same
      id returns the first object, whatever that class's table holds. */
  lemma AsWrittenServesOtherClassObject<V>(c1: ModelClass, c2: ModelClass, objectId: int, v1: V, objects2: map<int, V>)
    ensures var e := LookupState(map[], GetKeyAsWritten(c1, objectId), map[objectId := v1], objectId);
      Lookup(e, GetKeyAsWritten(c2, objectId), objects2, objectId) == Ok(v1)
  {
  }

  /** With the intended key, caching one class's object does not change what another class's get
      returns: it reads its own table. */
  lemma KeyedByClassServesOwnObject<V>(c1: ModelClass, c2: ModelClass, objectId: int, v1: V, objects2: map<int, V>)
    requires IsClassName(c1.name) && IsClassName(c2.name) && c1 != c2
    requires objectId in objects2
    ensures var e := LookupState(map[], GetKey(c1, objectId), map[objectId := v1], objectId);
      Lookup(e, GetKey(c2, objectId), objects2, objectId) == Ok(objects2[objectId])
  {
    if GetKey(c2, objectId) == GetKey(c1, objectId) {
      GetKeyInjective(c1, objectId, c2, objectId);
    }
  }

  /** A get right after a successful miss is a hit that returns the same object. */
  lemma MissThenHit<V>(entries: map<string, V>, key: string, objects: map<int, V>, objectId: int, objects': map<int, V>)
    requires key !in entries && objectId in objects
    ensures var e := LookupState(entries, key, objects, objectId);
      key in e && Lookup(e, key, objects', objectId) == Lookup(entries, key, objects, objectId)
  {
  }

  /** `get_object_through_memcached`: a hit returns the cached object without reading the table; a
      miss reads the row and caches it; a missing row fails with nothing cached. */
  method GetObjectThroughMemcached<V>(cache: Cache<string, V>, c: ModelClass, objectId: int, objects: map<int, V>)
    returns (r: Result<V, LookupError>)
    modifies cache
    ensures r == Lookup(old(cache.entries), GetKey(c, objectId), objects, objectId)
    ensures cache.entries == LookupState(old(cache.entries), GetKey(c, objectId), objects, objectId)
    ensures GetKey(c, objectId) in old(cache.entries) ==>
      r == Ok(old(cache.entries)[GetKey(c, objectId)]) && cache.entries == old(cache.entries)
    ensures GetKey(c, objectId) !in old(cache.entries) && objectId !in objects ==>
      r == Err(DoesNotExist) && cache.entries == old(cache.entries)
  {
    var key := GetKey(c, objectId);
    if key in cache.entries {
      return Ok(cache.entries[key]);
    }
    if objectId !in objects {
      return Err(DoesNotExist);
    }
    var obj := objects[objectId];
    cache.entries := cache.entries[key := obj];
    r := Ok(obj);
  }

  /** `invalidate_cached_object`: removes that key and no other, so the next get is a miss. */
  method InvalidateCachedObject<V>(cache: Cache<string, V>, c: ModelClass, objectId: int)
    modifies cache
    ensures cache.entries == old(cache.entries) - {GetKey(c, objectId)}
    ensures GetKey(c, objectId) !in cache.entries
  {
    var key := GetKey(c, objectId);
    cache.entries := cache.entries - {key};
  }
}
