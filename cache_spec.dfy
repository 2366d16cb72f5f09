/**
 * What each operation of the MongoDB cache store does to the collection,
 * as functions of the collection before the call, the key prefix, the
 * arguments and the instant `now` that `time()` would return.
 *
 * The store prefixes keys unevenly, and these functions keep that:
 * `get`, `increment` and `decrement` look at `prefix + prefix + key`,
 * an expired hit found there is deleted at `prefix + prefix + prefix + key`,
 * `forever` writes at `prefix + prefix + key`, and `put`, `putMany`,
 * `forget` and the counter writes use `prefix + key`.
 */
module CacheSpec {
  import opened Wrappers
  import opened Documents

  /** The expiry written for `minutes == 0`: a far-future sentinel. */
  const ForeverExpiry: int := 9999999999

  /** `expiration($minutes)`: the sentinel for 0, otherwise `minutes` from now. */
  function Expiration(now: int, minutes: int): (t: int)
    ensures minutes == 0 ==> t == ForeverExpiry
    ensures minutes != 0 ==> t == now + minutes * 60
  {
    if minutes == 0 then ForeverExpiry else now + minutes * 60
  }

  /** PHP's `(int) ($t / 60)`: division by 60 truncated toward zero. */
  function TruncDiv60(t: int): (q: int)
    ensures 0 <= t ==> 0 <= q * 60 <= t < q * 60 + 60
    ensures t < 0 ==> q * 60 - 60 < t <= q * 60 <= 0
  {
    if t >= 0 then t / 60 else -((-t) / 60)
  }

  /** The expiration check of `getObject`: an `expire` field that `now` has reached. */
  predicate Expired(d: Doc, now: int)
  {
    d.expire.Some? && now >= d.expire.value
  }

  /** A document at `k` that the expiration check lets through. */
  predicate Live(c: Collection, k: string, now: int)
  {
    k in c && !Expired(c[k], now)
  }

  /** The keys `getObject` deletes after finding an expired document at `k`. */
  function Evicted(c: Collection, prefix: string, k: string, now: int): set<string>
  {
    if k in c && Expired(c[k], now) then {prefix + k} else {}
  }

  /** No document carries an `expire` field. */
  predicate NoExpireField(c: Collection)
  {
    forall k :: k in c ==> c[k].expire.None?
  }

  /** Every `expire` field in `r` was already there, on the same document, in `c`. */
  predicate WritesNoExpire(c: Collection, r: Collection)
  {
    forall k :: k in r && r[k].expire.Some? ==> k in c && c[k].expire == r[k].expire
  }

  /** The three fields the adapter writes, as they stand in `d`. */
  predicate Holds(d: Doc, cacheData: Option<Value>, expiry: Option<int>, ttl: Option<int>)
  {
    d.cacheData == cacheData && d.expiry == expiry && d.ttl == ttl
  }

  /** A stored payload that is an integer. */
  predicate IsInt(v: Option<Value>)
  {
    v.Some? && v.value.Int?
  }

  /** The result of `getObject` and the collection it leaves behind. */
  datatype Lookup = Lookup(found: Option<Doc>, store: Collection)

  /** The result of `get` and the collection it leaves behind. */
  datatype Fetch = Fetch(value: Option<Value>, store: Collection)

  /** `forget($key)`: delete the document at `prefix + key`. */
  function Forget(c: Collection, prefix: string, key: string): (r: Collection)
    ensures r.Keys == c.Keys - {prefix + key}
    ensures forall k :: k in r ==> r[k] == c[k]
  {
    DeleteOne(c, prefix + key)
  }

  /**
   * `getObject($key)`: the document at `prefix + key` unless it has expired;
   * an expired one is reported missing and `forget(prefix + key)` deletes
   * the document at `prefix + (prefix + key)`.
   */
  function GetObject(c: Collection, prefix: string, key: string, now: int): (r: Lookup)
    ensures r.found.Some? <==> Live(c, prefix + key, now)
    ensures r.found.Some? ==> r.found.value == c[prefix + key]
    ensures r.store == c - Evicted(c, prefix, prefix + key, now)
  {
    var doc := FindOne(c, prefix + key);
    if doc.None? then Lookup(None, c)
    else if Expired(doc.value, now) then Lookup(None, Forget(c, prefix, prefix + key))
    else Lookup(doc, c)
  }

  /**
   * `get($key)`: `getObject(prefix + key)`, so the document consulted is
   * the one at `prefix + (prefix + key)`; its `cache_data`, or nothing.
   */
  function Get(c: Collection, prefix: string, key: string, now: int): (r: Fetch)
    ensures r.value.Some? ==> Live(c, prefix + (prefix + key), now)
    ensures Live(c, prefix + (prefix + key), now) ==>
              r.value == c[prefix + (prefix + key)].cacheData && r.store == c
    ensures !Live(c, prefix + (prefix + key), now) ==>
              r.value.None? && r.store == c - Evicted(c, prefix, prefix + (prefix + key), now)
  {
    var obj := GetObject(c, prefix, prefix + key, now);
    Fetch(if obj.found.Some? then obj.found.value.cacheData else None, obj.store)
  }

  /** The `$set` of `put`. */
  function PutFields(value: Value, minutes: int, now: int): SetFields
  {
    SetFields(Write(Some(value)), Write(Some(Expiration(now, minutes))), Write(Some(minutes * 60)))
  }

  /** `put($key, $value, $minutes)`: upsert at `prefix + key`. */
  function Put(c: Collection, prefix: string, key: string, value: Value, minutes: int, now: int): (r: Collection)
    ensures r.Keys == c.Keys + {prefix + key}
    ensures Holds(r[prefix + key], Some(value), Some(Expiration(now, minutes)), Some(minutes * 60))
    ensures r[prefix + key].expire == FindOne(c, prefix + key).GetOr(NoFields).expire
    ensures forall k :: k in c && k != prefix + key ==> r[k] == c[k]
    ensures WritesNoExpire(c, r)
  {
    UpdateOne(c, prefix + key, PutFields(value, minutes, now))
  }

  /** `forever($key, $value)`: `put(prefix + key, $value, 0)`; `expiration(0)` never reads the clock. */
  function Forever(c: Collection, prefix: string, key: string, value: Value): (r: Collection)
    ensures r.Keys == c.Keys + {prefix + (prefix + key)}
    ensures Holds(r[prefix + (prefix + key)], Some(value), Some(ForeverExpiry), Some(0))
    ensures r[prefix + (prefix + key)].expire == FindOne(c, prefix + (prefix + key)).GetOr(NoFields).expire
    ensures forall k :: k in c && k != prefix + (prefix + key) ==> r[k] == c[k]
    ensures WritesNoExpire(c, r)
  {
    Put(c, prefix, prefix + key, value, 0, 0)
  }

  /** The `$set` a counter operation writes when `getObject` found nothing. */
  function SeedFields(start: int, now: int): SetFields
  {
    SetFields(Write(Some(Int(start))), Write(Some(Expiration(now, 0))), Write(Some(Expiration(now, 0))))
  }

  /**
   * The `$set` a counter operation writes over a document it found: the new
   * count, an expiry recomputed from the found `ttl`, and that `ttl` again
   * (null when it had none, read as 0 seconds for the expiry).
   */
  function BumpFields(count: int, ttl: Option<int>, now: int): SetFields
  {
    SetFields(Write(Some(Int(count))), Write(Some(Expiration(now, TruncDiv60(ttl.GetOr(0))))), Write(ttl))
  }

  /**
   * `increment($key, $value)`: reads through `getObject(prefix + key)`,
   * that is at `prefix + (prefix + key)`, and writes at `prefix + key`.
   * `None` is the failure of adding to a payload that is not an integer;
   * the collection is then left as it was.
   */
  function Increment(c: Collection, prefix: string, key: string, delta: int, now: int): (r: Option<Collection>)
    ensures r.None? <==> Live(c, prefix + (prefix + key), now) && !IsInt(c[prefix + (prefix + key)].cacheData)
    ensures !Live(c, prefix + (prefix + key), now) ==>
              r.Some? && prefix + key in r.value &&
              Holds(r.value[prefix + key], Some(Int(delta)), Some(ForeverExpiry), Some(ForeverExpiry))
    ensures Live(c, prefix + (prefix + key), now) && IsInt(c[prefix + (prefix + key)].cacheData) ==>
              var found := c[prefix + (prefix + key)];
              r.Some? && prefix + key in r.value &&
              Holds(r.value[prefix + key], Some(Int(found.cacheData.value.n + delta)),
                    Some(Expiration(now, TruncDiv60(found.ttl.GetOr(0)))), found.ttl)
    ensures r.Some? ==>
              r.value.Keys == (c.Keys - Evicted(c, prefix, prefix + (prefix + key), now)) + {prefix + key}
    ensures r.Some? ==> forall k :: k in r.value && k != prefix + key ==> k in c && r.value[k] == c[k]
    ensures r.Some? ==> WritesNoExpire(c, r.value)
    ensures r.Some? ==>
              r.value[prefix + key].expire ==
              FindOne(c - Evicted(c, prefix, prefix + (prefix + key), now), prefix + key).GetOr(NoFields).expire
  {
    var obj := GetObject(c, prefix, prefix + key, now);
    if obj.found.None? then
      Some(UpdateOne(obj.store, prefix + key, SeedFields(delta, now)))
    else
      match obj.found.value.cacheData
      case Some(Int(n)) => Some(UpdateOne(obj.store, prefix + key, BumpFields(n + delta, obj.found.value.ttl, now)))
      case _ => None
  }

  /**
   * `decrement($key, $value)`: as `increment`, seeding `0 - value` and
   * subtracting from a count it finds.
   */
  function Decrement(c: Collection, prefix: string, key: string, delta: int, now: int): (r: Option<Collection>)
    ensures r.None? <==> Live(c, prefix + (prefix + key), now) && !IsInt(c[prefix + (prefix + key)].cacheData)
    ensures !Live(c, prefix + (prefix + key), now) ==>
              r.Some? && prefix + key in r.value &&
              Holds(r.value[prefix + key], Some(Int(0 - delta)), Some(ForeverExpiry), Some(ForeverExpiry))
    ensures Live(c, prefix + (prefix + key), now) && IsInt(c[prefix + (prefix + key)].cacheData) ==>
              var found := c[prefix + (prefix + key)];
              r.Some? && prefix + key in r.value &&
              Holds(r.value[prefix + key], Some(Int(found.cacheData.value.n - delta)),
                    Some(Expiration(now, TruncDiv60(found.ttl.GetOr(0)))), found.ttl)
    ensures r.Some? ==>
              r.value.Keys == (c.Keys - Evicted(c, prefix, prefix + (prefix + key), now)) + {prefix + key}
    ensures r.Some? ==> forall k :: k in r.value && k != prefix + key ==> k in c && r.value[k] == c[k]
    ensures r.Some? ==> WritesNoExpire(c, r.value)
    ensures r.Some? ==>
              r.value[prefix + key].expire ==
              FindOne(c - Evicted(c, prefix, prefix + (prefix + key), now), prefix + key).GetOr(NoFields).expire
  {
    var obj := GetObject(c, prefix, prefix + key, now);
    if obj.found.None? then
      Some(UpdateOne(obj.store, prefix + key, SeedFields(0 - delta, now)))
    else
      match obj.found.value.cacheData
      case Some(Int(n)) => Some(UpdateOne(obj.store, prefix + key, BumpFields(n - delta, obj.found.value.ttl, now)))
      case _ => None
  }

  /** The `$set` of `putMany` for one entry: `cache_data` and `ttl`, not `expiry`. */
  function PutManyFields(value: Value, seconds: int): SetFields
  {
    SetFields(Write(Some(value)), Keep, Write(Some(seconds * 60)))
  }

  /** The keys `putMany` writes for `entries`. */
  function Targets(prefix: string, entries: seq<(string, Value)>): set<string>
    decreases |entries|
  {
    if entries == [] then {}
    else Targets(prefix, entries[..|entries| - 1]) + {prefix + entries[|entries| - 1].0}
  }

  /**
   * `putMany($values, $seconds)`: one upsert at `prefix + key` per entry,
   * in the order of the array.
   */
  function PutMany(c: Collection, prefix: string, entries: seq<(string, Value)>, seconds: int): (r: Collection)
    ensures r.Keys == c.Keys + Targets(prefix, entries)
    ensures forall k :: k in c && k !in Targets(prefix, entries) ==> r[k] == c[k]
    ensures forall i :: 0 <= i < |entries| ==> prefix + entries[i].0 in r
    decreases |entries|
  {
    if entries == [] then c
    else
      var init, last := entries[..|entries| - 1], entries[|entries| - 1];
      var before := PutMany(c, prefix, init, seconds);
      UpdateOne(before, prefix + last.0, PutManyFields(last.1, seconds))
  }

  /** `putMany` writes no `expire` field. */
  lemma {:induction false} PutManyWritesNoExpire(c: Collection, prefix: string, entries: seq<(string, Value)>,
                                                 seconds: int)
    ensures WritesNoExpire(c, PutMany(c, prefix, entries, seconds))
    decreases |entries|
  {
    if entries != [] {
      PutManyWritesNoExpire(c, prefix, entries[..|entries| - 1], seconds);
    }
  }
}
