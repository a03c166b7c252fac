/**
 * The MongoDB collections the bot caches in: documents {key, value}, looked
 * up with find_one({"key": key}). The detail collection is written with
 * insert_one, the trailer collection with update_one(..., upsert=True).
 */
module Stores {
  import opened Outcomes

  /** A result together with the collection's contents after the call. */
  datatype Step<T, V> = Step(result: Outcome<T>, cache: map<string, V>)

  /**
   * A collection, as the value found under each key. find_one returns the
   * first document inserted under a key, so a later insert_one under the same
   * key is never seen: the store keeps the first value.
   */
  class Store<V> {
    var docs: map<string, V>

    constructor ()
      ensures docs == map[]
    {
      docs := map[];
    }

    /** find_one({"key": key}), with the stored `value` of the document found. */
    method FindOne(key: string) returns (r: Option<V>)
      ensures r.Some? <==> key in docs
      ensures r.Some? ==> r.value == docs[key]
    {
      if key in docs {
        r := Some(docs[key]);
      } else {
        r := None;
      }
    }

    /** insert_one({"key": key, "value": value}). */
    method InsertOne(key: string, value: V)
      modifies this
      ensures key in old(docs) ==> docs == old(docs)
      ensures key !in old(docs) ==> docs == old(docs)[key := value]
    {
      if key !in docs {
        docs := docs[key := value];
      }
    }

    /** update_one with $set and upsert: the document under `key` now holds `value`. */
    method Upsert(key: string, value: V)
      modifies this
      ensures docs == old(docs)[key := value]
    {
      docs := docs[key := value];
    }
  }
}
