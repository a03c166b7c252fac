/**
 * Search enrichment: TMDB_search_response_bot. Every movie or TV hit of a
 * /search/multi reply is merged with its aggregated detail, which is read from
 * the detail cache or, on a miss, computed and inserted there.
 */
module Search {
  import opened Outcomes
  import opened Json
  import opened Catalog
  import opened Aggregate
  import opened Keys
  import opened Stores

  /** A result together with the detail cache after the call. */
  type DetailStep<T> = Step<T, Object>

  /** The detail cache collection (TMDB_media_detail_clt), written with insert_one. */
  type DetailStore = Store<Object>

  /** A hit whose media_type is movie or tv: the only hits that get enriched. */
  predicate IsTitle(hit: Object) {
    "media_type" in hit && (hit["media_type"] == JStr(MovieKind) || hit["media_type"] == JStr(TvKind))
  }

  function KindOf(hit: Object): string
    requires IsTitle(hit)
  {
    hit["media_type"].s
  }

  /** The cache key of a title hit: its kind, str() of its id, and the language. */
  function HitKey(hit: Object, language: string): string
    requires IsTitle(hit) && "id" in hit
  {
    DetailKey(KindOf(hit), PyStr(hit["id"]), language)
  }

  /** The aggregator the search calls for a kind: cast limit 5, no raw detail. */
  function AggregateFor(cat: Catalog, kind: string, idText: string, language: string): Outcome<Object> {
    if kind == MovieKind then
      MovieAggregateOf(cat.detail(MovieKind, idText, language), cat.credits(MovieKind, idText, language), DefaultCastLimit, false)
    else
      SeriesAggregateOf(cat.detail(TvKind, idText, language), cat.credits(TvKind, idText, language), DefaultCastLimit, false)
  }

  /** One iteration of the hits loop: `item.update(value)` for a title, nothing for other kinds. */
  function EnrichHitOf(cat: Catalog, language: string, hit: Object, cache: map<string, Object>): DetailStep<Object> {
    if "media_type" !in hit then Step(Raise(KeyError), cache)
    else if !IsTitle(hit) then Step(Ok(hit), cache)
    else if "id" !in hit then Step(Raise(KeyError), cache)
    else
      var key := HitKey(hit, language);
      if key in cache then Step(Ok(hit + cache[key]), cache)
      else match AggregateFor(cat, KindOf(hit), PyStr(hit["id"]), language)
        case Raise(e) => Step(Raise(e), cache)
        case Ok(v) => Step(Ok(hit + v), cache[key := v])
  }

  /** `done` followed by what the rest of the loop produces. */
  function Prepend(done: seq<Object>, rest: DetailStep<seq<Object>>): DetailStep<seq<Object>> {
    Step(if rest.result.Raise? then rest.result else Ok(done + rest.result.value), rest.cache)
  }

  /** The hits loop, left to right; the first exception stops it, cache writes made so far stay. */
  function EnrichAllOf(cat: Catalog, language: string, hits: seq<Object>, cache: map<string, Object>): DetailStep<seq<Object>>
    decreases |hits|
  {
    if hits == [] then Step(Ok([]), cache)
    else
      var first := EnrichHitOf(cat, language, hits[0], cache);
      if first.result.Raise? then Step(Raise(first.result.exc), first.cache)
      else Prepend([first.result.value], EnrichAllOf(cat, language, hits[1..], first.cache))
  }

  /**
   * What TMDB_search_response_bot returns, or raises, and the cache after it.
   * A failed request gives []; a KeyError inside the try gives []; a reply
   * decoded to `{}` skips the try and raises KeyError at the final
   * `response["results"]`.
   */
  function SearchOf(cat: Catalog, phrase: string, language: string, cache: map<string, Object>): DetailStep<seq<Object>> {
    var reply := cat.search(phrase, language);
    if !reply.Succeeded() then Step(Ok([]), cache)
    else if !reply.body.NonEmpty() then Step(Raise(KeyError), cache)
    else if reply.body.results.None? then Step(Ok([]), cache)
    else
      var all := EnrichAllOf(cat, language, reply.body.results.value, cache);
      if all.result == Raise(KeyError) then Step(Ok([]), all.cache) else all
  }

  // ---------------------------------------------------------------- the code

  /** One hit: look the key up, compute and insert on a miss, merge the value into the hit. */
  method EnrichHit(store: DetailStore, cat: Catalog, language: string, hit: Object) returns (r: Outcome<Object>)
    modifies store
    ensures Step(r, store.docs) == EnrichHitOf(cat, language, hit, old(store.docs))
  {
    if "media_type" !in hit {
      return Raise(KeyError);
    }
    var mediaType := hit["media_type"];
    if mediaType != JStr(MovieKind) && mediaType != JStr(TvKind) {
      return Ok(hit);
    }
    if "id" !in hit {
      return Raise(KeyError);
    }
    var kind := mediaType.s;
    var idText := PyStr(hit["id"]);
    var key := DetailKey(kind, idText, language);
    var found := store.FindOne(key);
    var value: Object;
    if found.None? {
      var computed: Outcome<Object>;
      if kind == MovieKind {
        computed := AggregateMovie(cat.detail(kind, idText, language), cat.credits(kind, idText, language), DefaultCastLimit, false);
      } else {
        computed := AggregateSeries(cat.detail(kind, idText, language), cat.credits(kind, idText, language), DefaultCastLimit, false);
      }
      if computed.Raise? {
        return Raise(computed.exc);
      }
      value := computed.value;
      store.InsertOne(key, value);
    } else {
      value := found.value;
    }
    return Ok(hit + value);
  }

  /** TMDB_search_response_bot, with the search request given by the catalog. */
  method SearchResponse(store: DetailStore, cat: Catalog, phrase: string, language: string) returns (r: Outcome<seq<Object>>)
    modifies store
    ensures Step(r, store.docs) == SearchOf(cat, phrase, language, old(store.docs))
  {
    var response := cat.search(phrase, language);
    if response.status != 200 {
      return Ok([]);
    }
    var body := response.body;
    if !body.NonEmpty() {
      return Raise(KeyError);
    }
    if body.results.None? {
      return Ok([]);
    }
    var hits := body.results.value;
    var enriched: seq<Object> := [];
    assert hits[0..] == hits;
    PrependNothing(EnrichAllOf(cat, language, hits, store.docs));
    for i := 0 to |hits|
      invariant Prepend(enriched, EnrichAllOf(cat, language, hits[i..], store.docs)) == EnrichAllOf(cat, language, hits, old(store.docs))
    {
      assert hits[i..][1..] == hits[i + 1..];
      ghost var before := store.docs;
      var item := EnrichHit(store, cat, language, hits[i]);
      if item.Raise? {
        OnlyKeyErrorEscapes(cat, language, hits[i], before);
        return Ok([]);
      }
      PrependTwice(enriched, item.value, EnrichAllOf(cat, language, hits[i + 1..], store.docs));
      enriched := enriched + [item.value];
    }
    assert hits[|hits|..] == [];
    assert enriched + [] == enriched;
    return Ok(enriched);
  }

  lemma PrependNothing(rest: DetailStep<seq<Object>>)
    ensures Prepend([], rest) == rest
  {
    if rest.result.Ok? {
      assert [] + rest.result.value == rest.result.value;
    }
  }

  lemma PrependTwice(done: seq<Object>, x: Object, rest: DetailStep<seq<Object>>)
    ensures Prepend(done, Prepend([x], rest)) == Prepend(done + [x], rest)
  {
    if rest.result.Ok? {
      assert done + ([x] + rest.result.value) == (done + [x]) + rest.result.value;
    }
  }

  // ---------------------------------------------------------------- properties

  /** The aggregators raise nothing but KeyError, so a hit raises nothing else either. */
  lemma OnlyKeyErrorEscapes(cat: Catalog, language: string, hit: Object, cache: map<string, Object>)
    ensures EnrichHitOf(cat, language, hit, cache).result.Raise? ==>
            EnrichHitOf(cat, language, hit, cache).result.exc == KeyError
  {
  }

  /**
   * A cached title is not fetched again: the stored value is merged in, the
   * cache is unchanged, and the result does not depend on the catalog.
   */
  lemma CachedHitIsNotRecomputed(cat1: Catalog, cat2: Catalog, language: string, hit: Object, cache: map<string, Object>)
    requires IsTitle(hit) && "id" in hit && HitKey(hit, language) in cache
    ensures EnrichHitOf(cat1, language, hit, cache) == Step(Ok(hit + cache[HitKey(hit, language)]), cache)
    ensures EnrichHitOf(cat1, language, hit, cache) == EnrichHitOf(cat2, language, hit, cache)
  {
  }

  /**
   * On a miss the computed aggregate is stored, even when it is `{}` (the
   * aggregator's failure value), so that failure is served from the cache from
   * then on.
   */
  lemma MissStoresComputedValue(cat: Catalog, language: string, hit: Object, cache: map<string, Object>)
    requires IsTitle(hit) && "id" in hit && HitKey(hit, language) !in cache
    requires AggregateFor(cat, KindOf(hit), PyStr(hit["id"]), language).Ok?
    ensures var v := AggregateFor(cat, KindOf(hit), PyStr(hit["id"]), language).value;
            EnrichHitOf(cat, language, hit, cache) == Step(Ok(hit + v), cache[HitKey(hit, language) := v])
    ensures AggregateFor(cat, KindOf(hit), PyStr(hit["id"]), language) == Ok(map[]) ==>
            EnrichHitOf(cat, language, hit, cache) == Step(Ok(hit), cache[HitKey(hit, language) := map[]])
  {
    assert hit + map[] == hit;
  }

  /** A hit writes at most its own key, and only when that key was absent. */
  lemma EnrichHitCache(cat: Catalog, language: string, hit: Object, cache: map<string, Object>)
    ensures var after := EnrichHitOf(cat, language, hit, cache).cache;
            && (forall k :: k in cache ==> k in after && after[k] == cache[k])
            && (forall k :: k in after && k !in cache ==> IsTitle(hit) && "id" in hit && k == HitKey(hit, language))
  {
  }

  /**
   * The cache only grows: entries present before a search keep their value,
   * and every new entry is the key of one of the title hits.
   */
  lemma {:induction false} EnrichAllCache(cat: Catalog, language: string, hits: seq<Object>, cache: map<string, Object>)
    ensures var after := EnrichAllOf(cat, language, hits, cache).cache;
            && (forall k :: k in cache ==> k in after && after[k] == cache[k])
            && (forall k :: k in after && k !in cache ==>
                  exists i :: 0 <= i < |hits| && IsTitle(hits[i]) && "id" in hits[i] && k == HitKey(hits[i], language))
    decreases |hits|
  {
    if hits != [] {
      var first := EnrichHitOf(cat, language, hits[0], cache);
      EnrichHitCache(cat, language, hits[0], cache);
      if first.result.Ok? {
        EnrichAllCache(cat, language, hits[1..], first.cache);
        var after := EnrichAllOf(cat, language, hits, cache).cache;
        forall k | k in after && k !in cache
          ensures exists i :: 0 <= i < |hits| && IsTitle(hits[i]) && "id" in hits[i] && k == HitKey(hits[i], language)
        {
          if k in first.cache {
            assert IsTitle(hits[0]) && "id" in hits[0] && k == HitKey(hits[0], language);
          } else {
            var j :| 0 <= j < |hits[1..]| && IsTitle(hits[1..][j]) && "id" in hits[1..][j] && k == HitKey(hits[1..][j], language);
            assert hits[1..][j] == hits[j + 1];
          }
        }
      }
    }
  }

  /** The loop's result, hit by hit: titles merged with their cached aggregate, other hits as they came. */
  predicate EnrichedBy(hits: seq<Object>, out: seq<Object>, cache: map<string, Object>, language: string) {
    && |out| == |hits|
    && forall i :: 0 <= i < |hits| ==>
         && "media_type" in hits[i]
         && (!IsTitle(hits[i]) ==> out[i] == hits[i])
         && (IsTitle(hits[i]) ==> "id" in hits[i] && HitKey(hits[i], language) in cache
                                  && out[i] == hits[i] + cache[HitKey(hits[i], language)])
  }

  /**
   * When the loop completes, the result has one entry per hit in order; each
   * title is the hit updated with the aggregate stored under its key (the
   * aggregate's keys win over the hit's), and every other hit is untouched.
   */
  lemma {:induction false} EnrichmentShape(cat: Catalog, language: string, hits: seq<Object>, cache: map<string, Object>)
    requires EnrichAllOf(cat, language, hits, cache).result.Ok?
    ensures var all := EnrichAllOf(cat, language, hits, cache);
            EnrichedBy(hits, all.result.value, all.cache, language)
    decreases |hits|
  {
    if hits != [] {
      var first := EnrichHitOf(cat, language, hits[0], cache);
      var rest := EnrichAllOf(cat, language, hits[1..], first.cache);
      EnrichmentShape(cat, language, hits[1..], first.cache);
      EnrichAllCache(cat, language, hits[1..], first.cache);
      var all := EnrichAllOf(cat, language, hits, cache);
      assert all.cache == rest.cache;
      var out := all.result.value;
      assert out == [first.result.value] + rest.result.value;
      forall i | 0 <= i < |hits|
        ensures && "media_type" in hits[i]
                && (!IsTitle(hits[i]) ==> out[i] == hits[i])
                && (IsTitle(hits[i]) ==> "id" in hits[i] && HitKey(hits[i], language) in all.cache
                                         && out[i] == hits[i] + all.cache[HitKey(hits[i], language)])
      {
        if i > 0 {
          assert hits[i] == hits[1..][i - 1];
          assert out[i] == rest.result.value[i - 1];
        }
      }
    }
  }

  /**
   * Replaying hits against a cache that already holds their entries fetches
   * nothing, writes nothing and gives the same result, whatever the catalog.
   */
  lemma {:induction false} ReplayFromCache(cat: Catalog, language: string, hits: seq<Object>, out: seq<Object>, cache: map<string, Object>)
    requires EnrichedBy(hits, out, cache, language)
    ensures EnrichAllOf(cat, language, hits, cache) == Step(Ok(out), cache)
    decreases |hits|
  {
    if hits != [] {
      assert EnrichedBy(hits[1..], out[1..], cache, language) by {
        forall i | 0 <= i < |hits[1..]|
          ensures hits[1..][i] == hits[i + 1] && out[1..][i] == out[i + 1]
        {
        }
      }
      ReplayFromCache(cat, language, hits[1..], out[1..], cache);
      assert out == [out[0]] + out[1..];
    }
  }

  /** A repeated search over the same hits is served entirely from the cache. */
  lemma RepeatedEnrichmentIsIdempotent(cat1: Catalog, cat2: Catalog, language: string, hits: seq<Object>, cache: map<string, Object>)
    requires EnrichAllOf(cat1, language, hits, cache).result.Ok?
    ensures var first := EnrichAllOf(cat1, language, hits, cache);
            EnrichAllOf(cat2, language, hits, first.cache) == first
  {
    EnrichmentShape(cat1, language, hits, cache);
    var first := EnrichAllOf(cat1, language, hits, cache);
    ReplayFromCache(cat2, language, hits, first.result.value, first.cache);
  }

  /** Nothing is enriched, and the cache is not touched, when there is nothing to enrich. */
  lemma NothingToEnrich(cat: Catalog, phrase: string, language: string, cache: map<string, Object>)
    requires var reply := cat.search(phrase, language);
             !reply.Succeeded() || (reply.body.NonEmpty() && (reply.body.results.None? || reply.body.results == Some([])))
    ensures SearchOf(cat, phrase, language, cache) == Step(Ok([]), cache)
  {
  }

  lemma {:induction false} EnrichAllRaisesOnlyKeyError(cat: Catalog, language: string, hits: seq<Object>, cache: map<string, Object>)
    ensures EnrichAllOf(cat, language, hits, cache).result.Raise? ==>
            EnrichAllOf(cat, language, hits, cache).result.exc == KeyError
    decreases |hits|
  {
    if hits != [] {
      OnlyKeyErrorEscapes(cat, language, hits[0], cache);
      var first := EnrichHitOf(cat, language, hits[0], cache);
      if first.result.Ok? {
        EnrichAllRaisesOnlyKeyError(cat, language, hits[1..], first.cache);
      }
    }
  }

  /** The search raises exactly when the reply decoded to `{}`; every other failure gives []. */
  lemma SearchRaisesOnlyOnEmptyPayload(cat: Catalog, phrase: string, language: string, cache: map<string, Object>)
    ensures var reply := cat.search(phrase, language);
            SearchOf(cat, phrase, language, cache).result.Raise? <==> reply.Succeeded() && !reply.body.NonEmpty()
  {
    var reply := cat.search(phrase, language);
    if reply.Succeeded() && reply.body.NonEmpty() && reply.body.results.Some? {
      EnrichAllRaisesOnlyKeyError(cat, language, reply.body.results.value, cache);
    }
  }
}
