# MongoDB cache store, modelled in Dafny

This project models `MongoStore`, a Laravel cache store that keeps each
cache entry as one document of a MongoDB collection. The model covers the
store's key/value/TTL operations: `get`, `getObject`, `put`, `increment`,
`decrement`, `forever`, `forget`, `flush`, `expiration`, `getPrefix` and
`putMany`.

The collection is a `map<string, Doc>` from a document's `key` field to
the document. A `Doc` has four optional fields: `cache_data`, `expiry`,
`expire` and `ttl`. `None` stands for a field that is missing or null.
`updateOne(..., ['$set' => ...], ['upsert' => true])` creates the document
when it is missing and overwrites only the listed fields
(`Documents.UpdateOne`). PHP's `serialize`/`unserialize` are the identity
on an opaque `Value` (`Int(n)` or `Other(...)`). `time()` becomes a
parameter `now`.

Files:

- `wrappers.dfy`: `Option`.
- `documents.dfy`: values, documents, `$set`, and the `findOne`, `updateOne` and `deleteOne` calls the store makes.
- `cache_spec.dfy`: one function per store operation. Each gives the result and the collection afterwards.
- `mongo_store.dfy`: class `MongoStore`. It has a `const prefix` and a `collection` field that its methods update in place. Each method except `Flush` is proved to end in the state its `CacheSpec` function gives. `Flush` is proved to leave the collection empty. `GetPrefix` is a function that returns the prefix.
- `cache_properties.dfy`: lemmas about sequences of operations.

The model follows the code, including where the code departs from the
adapter's documented contract:

- Keys are prefixed unevenly. `get`, `increment` and `decrement` call `getObject(prefix.key)`, and `getObject` prefixes again. So they read at `prefix+prefix+key`.
- An expired hit found there is deleted through `forget(prefix.key)`, which deletes `prefix+prefix+prefix+key`.
- `forever` writes at `prefix+prefix+key`. `put`, `putMany`, `forget` and the counter writes use `prefix+key`.
- Writes set the field `expiry`, but the expiration check reads `expire`. No operation ever writes `expire`, so an entry written through the store never expires.
- A counter created by `increment`/`decrement` gets `ttl = expiration(0) = 9999999999`, not 0. The next counter update turns that `ttl` into an expiry 9999999960 seconds ahead.
- `putMany` multiplies its `seconds` by 60 and does not write `expiry`.
- `flush` drops the whole collection, not just the keys under this prefix.

## Model

| member | source | states |
|---|---|---|
| `Documents.FindOne` | src/Cache/MongoStore.php:86-88 | a document is found exactly when one has the key, and it is that document |
| `Documents.ApplySet` | src/Cache/MongoStore.php:115-123 | `$set` with upsert writes the listed fields, keeps `expire` and each unlisted field (`cache_data`, `expiry`, `ttl`) of an existing document, and starts a missing one from no fields |
| `Documents.UpdateOne` | src/Cache/MongoStore.php:110-125 | the upsert adds or updates only the filtered key; every other document is unchanged |
| `Documents.DeleteOne` | src/Cache/MongoStore.php:226-228 | removes exactly the given key, if present; other documents are unchanged |
| `CacheSpec.Expiration` | src/Cache/MongoStore.php:247-251 | 0 minutes gives 9999999999; any other `m` gives `now + m*60` |
| `CacheSpec.TruncDiv60` | src/Cache/MongoStore.php:149 | `(int)($t/60)` in integer terms: truncation toward zero, characterised by bounds on `q*60` for either sign of `t` |
| `CacheSpec.Forget` | src/Cache/MongoStore.php:224-229 | the collection loses exactly `prefix+key` and nothing else (a no-op when absent) |
| `CacheSpec.GetObject` | src/Cache/MongoStore.php:84-97 | finds a document exactly when one is at `prefix+key` and not expired (`expire` present and `now >= expire`); an expired hit removes `prefix+prefix+key`; otherwise the collection is unchanged |
| `CacheSpec.Get` | src/Cache/MongoStore.php:69-76 | returns the `cache_data` of a live document at `prefix+prefix+key`, leaving the collection as it was; otherwise nothing, and only the eviction of `getObject` happens |
| `CacheSpec.Put` | src/Cache/MongoStore.php:107-126 | the document at `prefix+key` exists with `cache_data = v`, `expiry = expiration(m)`, `ttl = m*60` and its old `expire`; every other key is unchanged |
| `CacheSpec.Forever` | src/Cache/MongoStore.php:213-216 | the document at `prefix+prefix+key` holds the value with `expiry = 9999999999` and `ttl = 0`; every other key is unchanged |
| `CacheSpec.Increment` | src/Cache/MongoStore.php:137-165 | reads at `prefix+prefix+key` and writes at `prefix+key`: a miss seeds `d` with `expiry = ttl = 9999999999`; an integer hit `n` with `ttl` `t` gives `n+d`, keeps `t` and sets `expiry = expiration((int)(t/60))`; it fails exactly on a live non-integer payload; only `prefix+key` and the evicted key change; the written document keeps the `expire` it had after the eviction |
| `CacheSpec.Decrement` | src/Cache/MongoStore.php:176-204 | as `Increment`, seeding `0-d` and giving `n-d` on a hit; the written document keeps the `expire` it had after the eviction |
| `CacheSpec.PutMany` | src/Cache/MongoStore.php:288-308 | the keys afterwards are the old ones plus `prefix+key` for each entry; no other document changes |
| `CacheSpec.PutManyWritesNoExpire` | src/Cache/MongoStore.php:296-299 | `putMany` writes no `expire` field |
| `MongoCache.MongoStore.constructor` | src/Cache/MongoStore.php:50-53 | the store has the configured prefix and the selected collection |
| `MongoCache.MongoStore.GetObject` | src/Cache/MongoStore.php:84-97 | returns what `CacheSpec.GetObject` finds and leaves the collection it leaves, deleting through `Forget` |
| `MongoCache.MongoStore.Get` | src/Cache/MongoStore.php:69-76 | returns and leaves what `CacheSpec.Get` says |
| `MongoCache.MongoStore.Put` | src/Cache/MongoStore.php:107-126 | the new collection is `CacheSpec.Put` of the old one |
| `MongoCache.MongoStore.Increment` | src/Cache/MongoStore.php:137-165 | succeeds exactly when `CacheSpec.Increment` does and then leaves its collection; on failure the collection is unchanged |
| `MongoCache.MongoStore.Decrement` | src/Cache/MongoStore.php:176-204 | succeeds exactly when `CacheSpec.Decrement` does and then leaves its collection; on failure the collection is unchanged |
| `MongoCache.MongoStore.Forever` | src/Cache/MongoStore.php:213-216 | the new collection is `CacheSpec.Forever` of the old one |
| `MongoCache.MongoStore.Forget` | src/Cache/MongoStore.php:224-229 | the new collection is `CacheSpec.Forget` of the old one |
| `MongoCache.MongoStore.Flush` | src/Cache/MongoStore.php:236-239 | the collection is empty afterwards |
| `MongoCache.MongoStore.GetPrefix` | src/Cache/MongoStore.php:258-261 | returns the prefix, a constant fixed by the constructor |
| `MongoCache.MongoStore.PutMany` | src/Cache/MongoStore.php:288-308 | returns true; the upserts of the loop, in array order, leave `CacheSpec.PutMany` of the old collection |
| `CacheProperties.TruncDivOfMinutes` | src/Cache/MongoStore.php:149 | for a `ttl` of `m*60`, as `put` writes it, `(int)(ttl/60)` gives back `m`, negative `m` included |
| `CacheProperties.NoExpireNeverEvicts` | src/Cache/MongoStore.php:92 | when no document has `expire`, `getObject` is a plain lookup and never deletes |
| `CacheProperties.NoOperationWritesExpire` | src/Cache/MongoStore.php:115-119 | a collection without `expire` fields keeps without them after `getObject`, `get`, `put`, `forever`, `forget`, a successful `increment`/`decrement`, and `putMany` |
| `CacheProperties.UnwrittenKeyMisses` | src/Cache/MongoStore.php:69-76 | with nothing at `prefix+prefix+key` (for instance after `flush`), `get` returns nothing and changes nothing |
| `CacheProperties.PutThenGet` | src/Cache/MongoStore.php:107-126 | with an empty prefix, `get(k)` after `put(k, v, m)` returns `v` at any later instant, unless an old `expire` at that key fires by then: the minutes never make it expire |
| `CacheProperties.PrefixedPutIsInvisible` | src/Cache/MongoStore.php:71 | with a non-empty prefix, a `put` never changes what `get` returns for the same key |
| `CacheProperties.ForeverThenGet` | src/Cache/MongoStore.php:213-216 | under any prefix, `get(k)` after `forever(k, v)` returns `v` at any later instant, unless an old `expire` at that key fires |
| `CacheProperties.ForeverIsPutAtAnyTime` | src/Cache/MongoStore.php:215 | `forever(k, v)` equals `put(prefix+k, v, 0)` whatever the clock reads |
| `CacheProperties.ForgetThenGet` | src/Cache/MongoStore.php:224-229 | with an empty prefix, `get(k)` after `forget(k)` returns nothing |
| `CacheProperties.PrefixedForgetIsInvisible` | src/Cache/MongoStore.php:227 | with a non-empty prefix, `forget(k)` never changes what `get(k)` returns |
| `CacheProperties.IncrementAfterPut` | src/Cache/MongoStore.php:147-151 | with an empty prefix, `increment(k, d)` after `put(k, n, m)` with `m != 0` stores `n+d`, keeps `ttl = m*60` and sets `expiry` to `m` minutes after the increment, unless an old `expire` at that key fires by the increment |
| `CacheProperties.CounterFromScratch` | src/Cache/MongoStore.php:140-151 | with an empty prefix, a fresh counter reads back as `d1`; a second increment gives `d1+d2`, `ttl = 9999999999` and an expiry 9999999960 seconds after it |
| `CacheProperties.PrefixedCounterRestarts` | src/Cache/MongoStore.php:139-158 | with a non-empty prefix and nothing at `prefix+prefix+key`, a second increment stores its own delta again: counts never accumulate |
| `CacheProperties.DecrementIsNegatedIncrement` | src/Cache/MongoStore.php:176-204 | `decrement(k, d)` has exactly the effect of `increment(k, -d)` |
| `CacheProperties.TargetsArePrefixedKeys` | src/Cache/MongoStore.php:290-293 | the keys `putMany` writes are exactly the array's keys, each with the prefix in front |
| `CacheProperties.PutManyLeavesExpiry` | src/Cache/MongoStore.php:296-299 | after `putMany` every document has the `expiry` it had before; a new document has none |
| `CacheProperties.PutManyStores` | src/Cache/MongoStore.php:290-305 | for distinct keys, each entry's `prefix+key` holds its value, `ttl = seconds*60` and its old `expiry` |

## Left out

- The constructor's connection handling (src/Cache/MongoStore.php:54-60) is I/O set-up. The model is built from a prefix and the current contents of the selected collection.
- `many` (src/Cache/MongoStore.php:271-279) passes the key array to the driver's `find` as a filter. Its result depends on driver behaviour that is not part of this model.
- `CacheServiceProvider` is framework registration and configuration lookup. It is not part of this model.
- Store failures (connection errors, timeouts, write conflicts) are not modelled. Every driver call succeeds.
- Concurrency is not modelled. A sequential model has no read-modify-write race between concurrent counter updates.
- `time()` is a parameter `now`, and one call reads a single instant. In the source, `getObject` and `expiration` read the clock separately.
- Integers are unbounded. PHP's 64-bit integers turn into floats on overflow; the model does not capture that. `CacheSpec.TruncDiv60` is exact truncation, while PHP computes `ttl/60` as a float when `ttl` is not a multiple of 60; the two agree only while |ttl| < 2^53.
- The documents are a map, so there is at most one document per key. Duplicate keys put in the collection by other writers are not modelled.
- `MongoCache.MongoStore.Increment`: the add succeeds only when the found `cache_data` is an integer. Otherwise it fails and leaves the collection unchanged. PHP would coerce numeric strings, floats, booleans and a missing payload, and throw only for other types.
- `MongoCache.MongoStore.Decrement`: the same restriction as `Increment`.
- `CacheSpec.Get`: a live document without `cache_data` gives no value. PHP would `unserialize(null)` and return `false`.
- `MongoCache.MongoStore.PutMany`: takes the PHP array as a sequence of (key, value) pairs. The per-entry result (`CacheProperties.PutManyStores`) is stated for distinct keys, as any PHP array has.
