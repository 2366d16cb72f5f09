/**
 * The cache store itself: a key prefix fixed at construction and the
 * collection it reads and writes in place. Each method is proved to leave
 * the collection as the matching function of `CacheSpec` says.
 */
module MongoCache {
  import opened Wrappers
  import opened Documents
  import CacheSpec

  class MongoStore {
    /** The string prepended to keys; never reassigned after construction. */
    const prefix: string
    /** The documents of the selected collection. */
    var collection: Collection

    /** A store over an already selected collection (the connection set-up is not modelled). */
    constructor (prefix: string, collection: Collection)
      ensures this.prefix == prefix && this.collection == collection
    {
      this.prefix := prefix;
      this.collection := collection;
    }

    /** `get($key)`. */
    method Get(key: string, now: int) returns (value: Option<Value>)
      modifies this
      ensures CacheSpec.Fetch(value, collection) == CacheSpec.Get(old(collection), prefix, key, now)
    {
      var cacheData := GetObject(prefix + key, now);
      if cacheData.None? {
        return None;
      }
      return cacheData.value.cacheData;
    }

    /** `getObject($key)`: may delete an expired document as a side effect. */
    method GetObject(key: string, now: int) returns (found: Option<Doc>)
      modifies this
      ensures CacheSpec.Lookup(found, collection) == CacheSpec.GetObject(old(collection), prefix, key, now)
    {
      var cacheData := FindOne(collection, prefix + key);
      if cacheData.None? {
        return None;
      }
      if CacheSpec.Expired(cacheData.value, now) {
        Forget(prefix + key);
        return None;
      }
      return cacheData;
    }

    /** `put($key, $value, $minutes)`. */
    method Put(key: string, value: Value, minutes: int, now: int)
      modifies this
      ensures collection == CacheSpec.Put(old(collection), prefix, key, value, minutes, now)
    {
      var expiry := CacheSpec.Expiration(now, minutes);
      collection := UpdateOne(collection, prefix + key,
                              SetFields(Write(Some(value)), Write(Some(expiry)), Write(Some(minutes * 60))));
    }

    /** `increment($key, $value = 1)`; `ok` is false where PHP's `+` would fail on the payload. */
    method Increment(key: string, now: int, value: int := 1) returns (ok: bool)
      modifies this
      ensures var r := CacheSpec.Increment(old(collection), prefix, key, value, now);
              ok == r.Some? && collection == (if ok then r.value else old(collection))
    {
      var cacheData := GetObject(prefix + key, now);
      var newData: SetFields;
      if cacheData.None? {
        newData := CacheSpec.SeedFields(value, now);
      } else {
        match cacheData.value.cacheData
        case Some(Int(n)) =>
          newData := CacheSpec.BumpFields(n + value, cacheData.value.ttl, now);
        case _ =>
          return false;
      }
      collection := UpdateOne(collection, prefix + key, newData);
      return true;
    }

    /** `decrement($key, $value = 1)`; `ok` is false where PHP's `-` would fail on the payload. */
    method Decrement(key: string, now: int, value: int := 1) returns (ok: bool)
      modifies this
      ensures var r := CacheSpec.Decrement(old(collection), prefix, key, value, now);
              ok == r.Some? && collection == (if ok then r.value else old(collection))
    {
      var cacheData := GetObject(prefix + key, now);
      var newData: SetFields;
      if cacheData.None? {
        newData := CacheSpec.SeedFields(0 - value, now);
      } else {
        match cacheData.value.cacheData
        case Some(Int(n)) =>
          newData := CacheSpec.BumpFields(n - value, cacheData.value.ttl, now);
        case _ =>
          return false;
      }
      collection := UpdateOne(collection, prefix + key, newData);
      return true;
    }

    /** `forever($key, $value)`: `put` with the key prefixed once more and 0 minutes. */
    method Forever(key: string, value: Value)
      modifies this
      ensures collection == CacheSpec.Forever(old(collection), prefix, key, value)
    {
      // expiration(0) returns before it reads the clock, so any instant will do
      Put(prefix + key, value, 0, 0);
    }

    /** `forget($key)`. */
    method Forget(key: string)
      modifies this
      ensures collection == CacheSpec.Forget(old(collection), prefix, key)
    {
      collection := DeleteOne(collection, prefix + key);
    }

    /** `flush()`: drops the whole collection, whatever the prefix of its keys. */
    method Flush()
      modifies this
      ensures collection == map[]
    {
      collection := map[];
    }

    /** `getPrefix()`. */
    function GetPrefix(): (p: string)
      ensures p == prefix
    {
      prefix
    }

    /** `putMany($values, $seconds)`: one upsert per entry, in the order given. */
    method PutMany(values: seq<(string, Value)>, seconds: int) returns (ok: bool)
      modifies this
      ensures ok
      ensures collection == CacheSpec.PutMany(old(collection), prefix, values, seconds)
    {
      var i := 0;
      while i < |values|
        invariant 0 <= i <= |values|
        invariant collection == CacheSpec.PutMany(old(collection), prefix, values[..i], seconds)
      {
        var (key, value) := values[i];
        assert values[..i + 1][..i] == values[..i];
        collection := UpdateOne(collection, prefix + key,
                                SetFields(Write(Some(value)), Keep, Write(Some(seconds * 60))));
        i := i + 1;
      }
      assert values[..i] == values;
      return true;
    }
  }
}
