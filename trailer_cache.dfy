/**
 * The trailer cache of the result handlers: the trailers of a title are looked
 * up under "trailers---<kind>---<id>---<language>"; on a miss they are fetched
 * (again in English when a Persian request finds none) and upserted under the
 * key of the language asked for. The rows of buttons built from them are then
 * shown in reverse order.
 */
module TrailerCache {
  import opened Outcomes
  import opened Json
  import opened Catalog
  import opened Trailers
  import opened Keys
  import opened Keyboard
  import opened Stores

  /** A result together with the trailer cache after the call. */
  type TrailerStep<T> = Step<T, seq<Trailer>>

  /** The trailer collection (trailers_clt), written with update_one(..., upsert=True). */
  type TrailerStore = Store<seq<Trailer>>

  /** TMDB_get_trailer(ids, media_type, language=language), trailer limit 1. */
  function FetchOf(cat: Catalog, kind: string, idText: string, language: string): Outcome<seq<Trailer>> {
    TrailersOf(kind, cat.videos(kind, idText, language), DefaultTrailerLimit)
  }

  /** The fetch on a miss: the language asked for, then English when a Persian request found none. */
  function FetchWithFallbackOf(cat: Catalog, kind: string, idText: string, language: string): Outcome<seq<Trailer>> {
    match FetchOf(cat, kind, idText, language)
    case Raise(e) => Raise(e)
    case Ok(ts) =>
      if language == PersianLanguage && ts == [] then FetchOf(cat, kind, idText, EnglishLanguage)
      else Ok(ts)
  }

  /** The trailers a handler uses, and the cache after the lookup. */
  function ResolveOf(cat: Catalog, kind: string, idText: string, language: string,
                     cache: map<string, seq<Trailer>>): TrailerStep<seq<Trailer>>
  {
    var key := TrailerKey(kind, idText, language);
    if key in cache then Step(Ok(cache[key]), cache)
    else match FetchWithFallbackOf(cat, kind, idText, language)
      case Raise(e) => Step(Raise(e), cache)
      case Ok(ts) => Step(Ok(ts), cache[key := ts])
  }

  /** The rows as displayed: get_inline_keyboard_trailer on the resolved trailers, then [::-1]. */
  function DisplayedRowsOf(cat: Catalog, kind: string, idText: string, language: string, item: Object,
                           words: TagWords, cache: map<string, seq<Trailer>>): TrailerStep<seq<Row>>
  {
    var resolved := ResolveOf(cat, kind, idText, language, cache);
    match resolved.result
    case Raise(e) => Step(Raise(e), resolved.cache)
    case Ok(ts) =>
      match KeyboardOf(ts, kind, item, words)
      case Raise(e) => Step(Raise(e), resolved.cache)
      case Ok(rows) => Step(Ok(Reversed(rows)), resolved.cache)
  }

  // ---------------------------------------------------------------- the code

  /** The trailer lookup block of the handlers. */
  method Resolve(store: TrailerStore, cat: Catalog, kind: string, idText: string, language: string)
    returns (r: Outcome<seq<Trailer>>)
    modifies store
    ensures Step(r, store.docs) == ResolveOf(cat, kind, idText, language, old(store.docs))
  {
    var key := TrailerKey(kind, idText, language);
    var found := store.FindOne(key);
    if found.Some? {
      return Ok(found.value);
    }
    var trailers := SelectTrailers(kind, cat.videos(kind, idText, language), DefaultTrailerLimit);
    if trailers.Raise? {
      return trailers;
    }
    if language == PersianLanguage && trailers.value == [] {
      trailers := SelectTrailers(kind, cat.videos(kind, idText, EnglishLanguage), DefaultTrailerLimit);
      if trailers.Raise? {
        return trailers;
      }
    }
    store.Upsert(key, trailers.value);
    return trailers;
  }

  /** The lookup, the keyboard and its reversal, as the handlers chain them. */
  method DisplayedRows(store: TrailerStore, cat: Catalog, kind: string, idText: string, language: string,
                       item: Object, words: TagWords) returns (r: Outcome<seq<Row>>)
    modifies store
    ensures Step(r, store.docs) == DisplayedRowsOf(cat, kind, idText, language, item, words, old(store.docs))
  {
    var trailers := Resolve(store, cat, kind, idText, language);
    if trailers.Raise? {
      return Raise(trailers.exc);
    }
    var inlineKeyboards := InlineKeyboardTrailer(trailers.value, kind, item, words);
    if inlineKeyboards.Raise? {
      return Raise(inlineKeyboards.exc);
    }
    return Ok(Reversed(inlineKeyboards.value));
  }

  // ---------------------------------------------------------------- properties

  /** A cached entry is used as stored, without fetching, whatever the catalog. */
  lemma CachedTrailersServed(cat1: Catalog, cat2: Catalog, kind: string, idText: string, language: string,
                             cache: map<string, seq<Trailer>>)
    requires TrailerKey(kind, idText, language) in cache
    ensures ResolveOf(cat1, kind, idText, language, cache) == Step(Ok(cache[TrailerKey(kind, idText, language)]), cache)
    ensures ResolveOf(cat1, kind, idText, language, cache) == ResolveOf(cat2, kind, idText, language, cache)
  {
  }

  /**
   * The English request matters only for a Persian lookup whose own fetch
   * found no trailer: two catalogs that agree on the request for the language
   * asked for resolve alike otherwise.
   */
  lemma FallbackOnlyForEmptyPersian(cat1: Catalog, cat2: Catalog, kind: string, idText: string, language: string,
                                    cache: map<string, seq<Trailer>>)
    requires cat1.videos(kind, idText, language) == cat2.videos(kind, idText, language)
    requires language != PersianLanguage || FetchOf(cat1, kind, idText, language) != Ok([])
    ensures ResolveOf(cat1, kind, idText, language, cache) == ResolveOf(cat2, kind, idText, language, cache)
  {
  }

  /**
   * On a Persian miss with no Persian trailers, the English trailers are
   * returned and stored under the Persian key; the English entry is neither
   * read nor written.
   */
  lemma PersianFallbackStoredUnderPersianKey(cat: Catalog, kind: string, idText: string,
                                             cache: map<string, seq<Trailer>>)
    requires TrailerKey(kind, idText, PersianLanguage) !in cache
    requires FetchOf(cat, kind, idText, PersianLanguage) == Ok([])
    requires FetchOf(cat, kind, idText, EnglishLanguage).Ok?
    ensures var english := FetchOf(cat, kind, idText, EnglishLanguage).value;
            var after := ResolveOf(cat, kind, idText, PersianLanguage, cache);
            && after.result == Ok(english)
            && after.cache == cache[TrailerKey(kind, idText, PersianLanguage) := english]
            && (TrailerKey(kind, idText, EnglishLanguage) in after.cache <==> TrailerKey(kind, idText, EnglishLanguage) in cache)
  {
    var prefix := TrailerNamespace + Sep + kind + Sep + idText + Sep;
    assert TrailerKey(kind, idText, PersianLanguage) == prefix + PersianLanguage;
    assert TrailerKey(kind, idText, EnglishLanguage) == prefix + EnglishLanguage;
    assert (prefix + PersianLanguage)[|prefix|] != (prefix + EnglishLanguage)[|prefix|];
  }

  /** A failed fetch writes nothing, so the next lookup fetches again. */
  lemma RaiseLeavesCacheAlone(cat: Catalog, kind: string, idText: string, language: string,
                              cache: map<string, seq<Trailer>>)
    requires ResolveOf(cat, kind, idText, language, cache).result.Raise?
    ensures ResolveOf(cat, kind, idText, language, cache).cache == cache
    ensures TrailerKey(kind, idText, language) !in cache
  {
  }

  /**
   * A lookup that returned trailers leaves them cached: the next lookup for the
   * same title and language, with any catalog, returns the same list (even an
   * empty one) and writes nothing.
   */
  lemma ResolveIsIdempotent(cat1: Catalog, cat2: Catalog, kind: string, idText: string, language: string,
                            cache: map<string, seq<Trailer>>)
    requires ResolveOf(cat1, kind, idText, language, cache).result.Ok?
    ensures var first := ResolveOf(cat1, kind, idText, language, cache);
            ResolveOf(cat2, kind, idText, language, first.cache) == first
  {
  }

  /** Only the looked-up key is written; every other entry keeps its value. */
  lemma ResolveWritesOneKey(cat: Catalog, kind: string, idText: string, language: string,
                            cache: map<string, seq<Trailer>>)
    ensures var after := ResolveOf(cat, kind, idText, language, cache).cache;
            && after.Keys == cache.Keys + (if after == cache then {} else {TrailerKey(kind, idText, language)})
            && forall k :: k in cache && k != TrailerKey(kind, idText, language) ==> after[k] == cache[k]
  {
  }

  /**
   * As shown, the rows hold at most one trailer (the limit is 1), and a shown
   * row is the best-ranked trailer of the fetched videos.
   */
  lemma DisplayedRowsFromFreshFetch(cat: Catalog, kind: string, idText: string, language: string, item: Object,
                                    words: TagWords, cache: map<string, seq<Trailer>>)
    requires TrailerKey(kind, idText, language) !in cache
    requires FetchOf(cat, kind, idText, language).Ok? && FetchOf(cat, kind, idText, language).value != []
    requires DisplayedRowsOf(cat, kind, idText, language, item, words, cache).result.Ok?
    ensures var reply := cat.videos(kind, idText, language);
            var shown := DisplayedRowsOf(cat, kind, idText, language, item, words, cache).result.value;
            && |shown| == 1
            && |shown[0]| == 1
            && reply.Succeeded() && reply.body.results.Some? && AllReadable(reply.body.results.value)
            && Some(shown[0][0].url) == Ranked(Candidates(reply.body.results.value))[0].url
  {
    var reply := cat.videos(kind, idText, language);
    var ts := FetchOf(cat, kind, idText, language).value;
    SelectionProperties(kind, reply, DefaultTrailerLimit);
    KeyboardRows(ts, kind, item, words);
    var rows: seq<Row> := KeyboardOf(ts, kind, item, words).value;
    ReversedIndex(rows);
  }
}
