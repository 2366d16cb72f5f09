/**
 * The slice of the document store that the cache adapter relies on: one
 * collection of documents addressed by their `key` field, with `findOne`,
 * `updateOne` under `$set` with `upsert`, and `deleteOne` on that key.
 */
module Documents {
  import opened Wrappers

  /**
   * A cached payload. PHP's `serialize`/`unserialize` are taken as the
   * identity, so the stored form and the value are the same thing; only
   * integers matter to the adapter (for increment and decrement).
   */
  datatype Value = Int(n: int) | Other(serialized: string)

  /**
   * One cache document. `None` stands for a field that is missing or null
   * (PHP's `isset` and array reads do not tell them apart). The document's
   * `key` field is the key it has in the collection map.
   */
  datatype Doc = Doc(cacheData: Option<Value>, expiry: Option<int>, expire: Option<int>, ttl: Option<int>)

  /** The document an upsert starts from when no document has the key. */
  const NoFields: Doc := Doc(None, None, None, None)

  /** What a `$set` does to one field: leave it as it is, or write a value (or null). */
  datatype Assign<T> = Keep | Write(written: Option<T>)

  /**
   * The `$set` part of an `updateOne`. Only the three fields the adapter
   * ever names are here; none of its updates names `expire`.
   */
  datatype SetFields = SetFields(cacheData: Assign<Value>, expiry: Assign<int>, ttl: Assign<int>)

  /** A collection: at most one document per key. */
  type Collection = map<string, Doc>

  function Assigned<T>(current: Option<T>, a: Assign<T>): Option<T>
  {
    if a.Keep? then current else a.written
  }

  /** The document after `$set` on `existing`, or on a fresh one when there is none. */
  function ApplySet(existing: Option<Doc>, s: SetFields): (d: Doc)
    ensures d.expire == existing.GetOr(NoFields).expire
    ensures s.cacheData.Write? ==> d.cacheData == s.cacheData.written
    ensures s.expiry.Write? ==> d.expiry == s.expiry.written
    ensures s.ttl.Write? ==> d.ttl == s.ttl.written
    ensures s.cacheData.Keep? ==> d.cacheData == existing.GetOr(NoFields).cacheData
    ensures s.expiry.Keep? ==> d.expiry == existing.GetOr(NoFields).expiry
    ensures s.ttl.Keep? ==> d.ttl == existing.GetOr(NoFields).ttl
  {
    var base := existing.GetOr(NoFields);
    Doc(Assigned(base.cacheData, s.cacheData), Assigned(base.expiry, s.expiry),
        base.expire, Assigned(base.ttl, s.ttl))
  }

  /** `findOne(['key' => key])`. */
  function FindOne(c: Collection, key: string): (r: Option<Doc>)
    ensures r.Some? <==> key in c
    ensures r.Some? ==> r.value == c[key]
  {
    if key in c then Some(c[key]) else None
  }

  /**
   * `updateOne(['key' => key], ['$set' => s], ['upsert' => true])`: creates
   * the document when it is missing, overwrites only the listed fields, and
   * touches no other document.
   */
  function UpdateOne(c: Collection, key: string, s: SetFields): (r: Collection)
    ensures r.Keys == c.Keys + {key}
    ensures r[key] == ApplySet(FindOne(c, key), s)
    ensures forall k :: k in c && k != key ==> r[k] == c[k]
  {
    c[key := ApplySet(FindOne(c, key), s)]
  }

  /** `deleteOne(['key' => key])`: removes that document if there is one. */
  function DeleteOne(c: Collection, key: string): (r: Collection)
    ensures r.Keys == c.Keys - {key}
    ensures forall k :: k in r ==> r[k] == c[k]
  {
    c - {key}
  }
}
