/**
 * Properties of the store's operations taken together: what a read sees
 * after a write, how the counters evolve, and the invariant that no
 * operation ever writes the `expire` field that the expiration check reads.
 */
module CacheProperties {
  import opened Wrappers
  import opened Documents
  import opened CacheSpec

  /** The keys of a `putMany` array are distinct, as the keys of any PHP array are. */
  predicate DistinctKeys(entries: seq<(string, Value)>)
  {
    forall i, j :: 0 <= i < j < |entries| ==> entries[i].0 != entries[j].0
  }

  /** Counter writes recompute `expiry` from `ttl`; for a `ttl` that `put` wrote this gives back its minutes. */
  lemma TruncDivOfMinutes(minutes: int)
    ensures TruncDiv60(minutes * 60) == minutes
  {
    if minutes < 0 {
      assert -(minutes * 60) == (-minutes) * 60;
    }
  }

  /** Without `expire` fields the expiration check never fires: `getObject` is a plain lookup. */
  lemma NoExpireNeverEvicts(c: Collection, prefix: string, key: string, now: int)
    requires NoExpireField(c)
    ensures GetObject(c, prefix, key, now) == Lookup(FindOne(c, prefix + key), c)
  {
  }

  /** An operation that writes no `expire` keeps a collection free of that field. */
  lemma NoExpireCarries(c: Collection, r: Collection)
    requires NoExpireField(c) && WritesNoExpire(c, r)
    ensures NoExpireField(r)
  {
  }

  /**
   * No operation writes `expire`: a collection that starts without that
   * field keeps without it, whatever is called on it.
   */
  lemma NoOperationWritesExpire(c: Collection, prefix: string, key: string, value: Value, minutes: int,
                                delta: int, entries: seq<(string, Value)>, seconds: int, now: int)
    requires NoExpireField(c)
    ensures NoExpireField(GetObject(c, prefix, key, now).store)
    ensures NoExpireField(Get(c, prefix, key, now).store)
    ensures NoExpireField(Put(c, prefix, key, value, minutes, now))
    ensures NoExpireField(Forever(c, prefix, key, value))
    ensures NoExpireField(Forget(c, prefix, key))
    ensures Increment(c, prefix, key, delta, now).Some? ==>
              NoExpireField(Increment(c, prefix, key, delta, now).value)
    ensures Decrement(c, prefix, key, delta, now).Some? ==>
              NoExpireField(Decrement(c, prefix, key, delta, now).value)
    ensures NoExpireField(PutMany(c, prefix, entries, seconds))
  {
    NoExpireNeverEvicts(c, prefix, key, now);
    NoExpireNeverEvicts(c, prefix, prefix + key, now);
    NoExpireCarries(c, Put(c, prefix, key, value, minutes, now));
    NoExpireCarries(c, Forever(c, prefix, key, value));
    var inc := Increment(c, prefix, key, delta, now);
    if inc.Some? {
      NoExpireCarries(c, inc.value);
    }
    var dec := Decrement(c, prefix, key, delta, now);
    if dec.Some? {
      NoExpireCarries(c, dec.value);
    }
    PutManyWritesNoExpire(c, prefix, entries, seconds);
    NoExpireCarries(c, PutMany(c, prefix, entries, seconds));
  }

  /** `get` misses when nothing is stored at `prefix + prefix + key`, for instance after `flush`. */
  lemma UnwrittenKeyMisses(c: Collection, prefix: string, key: string, now: int)
    requires prefix + (prefix + key) !in c
    ensures Get(c, prefix, key, now) == Fetch(None, c)
  {
  }

  /**
   * With an empty prefix `get` sees what `put` stored, at any later instant:
   * `put` writes `expiry`, which the expiration check does not read, so the
   * minutes given never make the entry expire.
   */
  lemma PutThenGet(c: Collection, key: string, value: Value, minutes: int, now: int, later: int)
    requires !(key in c && Expired(c[key], later))
    ensures Get(Put(c, "", key, value, minutes, now), "", key, later).value == Some(value)
  {
    assert "" + key == key;
  }

  /**
   * With a non-empty prefix `put` writes at `prefix + key` and `get` reads at
   * `prefix + prefix + key`, so a `put` never changes what `get` returns.
   */
  lemma PrefixedPutIsInvisible(c: Collection, prefix: string, key: string, value: Value, minutes: int,
                               now: int, later: int)
    requires prefix != ""
    ensures Get(Put(c, prefix, key, value, minutes, now), prefix, key, later).value ==
            Get(c, prefix, key, later).value
  {
    assert |prefix + (prefix + key)| != |prefix + key|;
  }

  /** `forever` adds the prefix once more itself, so `get` finds the value under any prefix, forever. */
  lemma ForeverThenGet(c: Collection, prefix: string, key: string, value: Value, later: int)
    requires !(prefix + (prefix + key) in c && Expired(c[prefix + (prefix + key)], later))
    ensures Get(Forever(c, prefix, key, value), prefix, key, later).value == Some(value)
  {
  }

  /** `forever($key, $value)` is `put(prefix + key, $value, 0)` whatever the clock says. */
  lemma ForeverIsPutAtAnyTime(c: Collection, prefix: string, key: string, value: Value, now: int)
    ensures Forever(c, prefix, key, value) == Put(c, prefix, prefix + key, value, 0, now)
  {
  }

  /** With an empty prefix a `forget` hides the entry from `get`. */
  lemma ForgetThenGet(c: Collection, key: string, now: int)
    ensures Get(Forget(c, "", key), "", key, now).value == None
  {
    assert "" + key == key;
  }

  /** With a non-empty prefix `forget` deletes `prefix + key`, which `get` never reads. */
  lemma PrefixedForgetIsInvisible(c: Collection, prefix: string, key: string, now: int)
    requires prefix != ""
    ensures Get(Forget(c, prefix, key), prefix, key, now).value == Get(c, prefix, key, now).value
  {
    assert |prefix + (prefix + key)| != |prefix + key|;
  }

  /**
   * With an empty prefix, `increment` after `put(key, Int(n), minutes)` adds
   * to `n`, keeps the `ttl` and measures the new `expiry` from the increment.
   */
  lemma IncrementAfterPut(c: Collection, key: string, n: int, minutes: int, delta: int, now: int, later: int)
    requires minutes != 0
    requires !(key in c && Expired(c[key], later))
    ensures var r := Increment(Put(c, "", key, Int(n), minutes, now), "", key, delta, later);
            r.Some? && key in r.value &&
            Holds(r.value[key], Some(Int(n + delta)), Some(later + minutes * 60), Some(minutes * 60))
  {
    assert "" + key == key;
    TruncDivOfMinutes(minutes);
  }

  /**
   * A fresh counter (empty prefix) starts at `delta` with the sentinel as
   * its `ttl`; the next increment adds to it and turns that `ttl` into an
   * expiry 9999999960 seconds after the second call.
   */
  lemma CounterFromScratch(c: Collection, key: string, d1: int, d2: int, t1: int, t2: int)
    requires key !in c
    ensures var r1 := Increment(c, "", key, d1, t1);
            r1.Some? && Get(r1.value, "", key, t2).value == Some(Int(d1)) &&
            var r2 := Increment(r1.value, "", key, d2, t2);
            r2.Some? && key in r2.value &&
            Holds(r2.value[key], Some(Int(d1 + d2)), Some(t2 + 9999999960), Some(ForeverExpiry))
  {
    assert "" + key == key;
    var r1 := Increment(c, "", key, d1, t1);
    assert r1.Some? && Holds(r1.value[key], Some(Int(d1)), Some(ForeverExpiry), Some(ForeverExpiry));
    assert TruncDiv60(ForeverExpiry) == 166666666;
  }

  /**
   * With a non-empty prefix a counter never accumulates: each `increment`
   * reads `prefix + prefix + key`, finds nothing there, and seeds
   * `prefix + key` with its own delta again.
   */
  lemma PrefixedCounterRestarts(c: Collection, prefix: string, key: string, d1: int, d2: int, t1: int, t2: int)
    requires prefix != ""
    requires prefix + (prefix + key) !in c
    ensures var r1 := Increment(c, prefix, key, d1, t1);
            r1.Some? &&
            var r2 := Increment(r1.value, prefix, key, d2, t2);
            r2.Some? && prefix + key in r2.value && r2.value[prefix + key].cacheData == Some(Int(d2))
  {
    assert |prefix + (prefix + key)| != |prefix + key|;
    var r1 := Increment(c, prefix, key, d1, t1);
    assert r1.Some? && prefix + (prefix + key) !in r1.value;
  }

  /** `decrement` by `delta` does what `increment` by `-delta` does. */
  lemma DecrementIsNegatedIncrement(c: Collection, prefix: string, key: string, delta: int, now: int)
    ensures Decrement(c, prefix, key, delta, now) == Increment(c, prefix, key, -delta, now)
  {
  }

  /** The keys `putMany` writes are exactly the array's keys with the prefix in front. */
  lemma {:induction false} TargetsArePrefixedKeys(prefix: string, entries: seq<(string, Value)>, k: string)
    ensures k in Targets(prefix, entries) <==> exists i :: 0 <= i < |entries| && k == prefix + entries[i].0
    decreases |entries|
  {
    if entries != [] {
      var init := entries[..|entries| - 1];
      TargetsArePrefixedKeys(prefix, init, k);
      if k in Targets(prefix, init) {
        var i :| 0 <= i < |init| && k == prefix + init[i].0;
        assert entries[i] == init[i];
      }
      if exists i :: 0 <= i < |entries| && k == prefix + entries[i].0 {
        var i :| 0 <= i < |entries| && k == prefix + entries[i].0;
        if i < |init| {
          assert init[i] == entries[i];
        }
      }
    }
  }

  /** `putMany` never changes an `expiry`: it keeps the old one, and a new document has none. */
  lemma {:induction false} PutManyLeavesExpiry(c: Collection, prefix: string, entries: seq<(string, Value)>,
                                               seconds: int)
    ensures var r := PutMany(c, prefix, entries, seconds);
            forall k :: k in r ==> r[k].expiry == FindOne(c, k).GetOr(NoFields).expiry
    decreases |entries|
  {
    if entries != [] {
      PutManyLeavesExpiry(c, prefix, entries[..|entries| - 1], seconds);
    }
  }

  /** Distinct keys stay distinct under the same prefix. */
  lemma PrefixInjective(prefix: string, a: string, b: string)
    requires a != b
    ensures prefix + a != prefix + b
  {
    assert (prefix + a)[|prefix|..] == a;
    assert (prefix + b)[|prefix|..] == b;
  }

  /** Dropping the last entry keeps the keys distinct. */
  lemma DistinctKeysOfInit(entries: seq<(string, Value)>)
    requires entries != [] && DistinctKeys(entries)
    ensures DistinctKeys(entries[..|entries| - 1])
  {
    var init := entries[..|entries| - 1];
    forall p, q | 0 <= p < q < |init| ensures init[p].0 != init[q].0 {
      assert init[p] == entries[p] && init[q] == entries[q];
    }
  }

  /**
   * After `putMany` the `i`-th entry's key holds its value and
   * `seconds * 60` as `ttl`, with the `expiry` it had before (none for a
   * new document).
   */
  lemma {:induction false} PutManyStores(c: Collection, prefix: string, entries: seq<(string, Value)>,
                                         seconds: int, i: nat)
    requires DistinctKeys(entries)
    requires i < |entries|
    ensures var r := PutMany(c, prefix, entries, seconds);
            Holds(r[prefix + entries[i].0], Some(entries[i].1),
                  FindOne(c, prefix + entries[i].0).GetOr(NoFields).expiry, Some(seconds * 60))
    decreases |entries|
  {
    var init, last := entries[..|entries| - 1], entries[|entries| - 1];
    var before := PutMany(c, prefix, init, seconds);
    var r := PutMany(c, prefix, entries, seconds);
    assert r == UpdateOne(before, prefix + last.0, PutManyFields(last.1, seconds));
    if i == |entries| - 1 {
      PutManyLeavesExpiry(c, prefix, init, seconds);
    } else {
      assert init[i] == entries[i];
      DistinctKeysOfInit(entries);
      PrefixInjective(prefix, entries[i].0, last.0);
      PutManyStores(c, prefix, init, seconds, i);
    }
  }
}
