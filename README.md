# TMDB movie bot: search enrichment, trailers and callbacks in Dafny

This project models the core of a Telegram bot that looks up movies and TV
series in TMDB (The Movie Database). The model covers these parts:

- the credit extractor;
- the detail aggregator, which turns a detail reply and a credits reply into a
  normalised record;
- trailer selection, which sorts videos into official trailers, other trailers
  and everything else, then cuts the list to a limit;
- the search orchestrator, which merges each movie or TV hit with its
  aggregated detail through a write-once cache;
- the trailer cache of the result handlers, including the Persian-to-English
  fallback;
- the trailer keyboard builder and the reversed display of its rows;
- the two callback-data encodings, with the filters their handlers are
  registered under.

Python behaviour is modelled explicitly:

- A call's outcome is `Ok(value)` or `Raise(exception)`. The exception is one
  of KeyError, ValueError and UnboundLocalError.
- Each dictionary key the code subscripts is an `Option` field of the payload
  datatype. A missing key raises KeyError where the code subscripts it and is
  not guarded.
- Slicing `s[:k]` is `PyPrefix`, which includes negative `k`.
- `str.split` is `Split`, `int()` is `ParseInt`, `str()` of an integer is
  `IntText`, and truthiness is `Truthy`.

The HTTP requests are not modelled. A `Catalog` value stands for the TMDB
service: it maps the request parameters (kind, id as formatted into the URL,
language) to the reply. The MongoDB collections are classes with a `map`
field, one generic `Stores.Store` class:

- the detail collection (`Search.DetailStore`) is written with insert-once,
  and the first document under a key is the one found;
- the trailer collection (`TrailerCache.TrailerStore`) is written with upsert.

Each operation with a loop or a state change is a method. It is proved equal
to a specification function (`CreditsOf`, `MovieAggregateOf`, `TrailersOf`,
`SearchOf`, `ResolveOf`, `KeyboardOf`), and the lemmas prove what the bot
relies on about those functions.

Modules, one per file:

- `outcome.dfy`: Outcomes.
- `text.dfy`: Text. Digits, int/str, slicing, split.
- `json.dfy`: Json.
- `catalog.dfy`: Catalog. Reply payloads.
- `credits.dfy`: Credits.
- `aggregate.dfy`: Aggregate.
- `trailers.dfy`: Trailers.
- `keys.dfy`: Keys. Cache keys.
- `stores.dfy`: Stores. The cache collections.
- `search.dfy`: Search.
- `keyboard.dfy`: Keyboard.
- `trailer_cache.dfy`: TrailerCache.
- `callbacks.dfy`: Callbacks.

Where the code and its documentation disagree, the model follows the code:

- **Which value wins in `item.update(value)`.** The search merges a hit with
  `item.update(value)`, so on a key present in both, the aggregated value wins
  over the search hit's own value. `Search.EnrichmentShape` states this as
  `hit + aggregate`.
- **A search reply decoded to `{}`.** Such a reply skips the try block. It
  then raises KeyError at the final `response["results"]` (api.py:363), rather
  than giving an empty list.
- **A credits payload without `crew`, or an entry without a name.** The
  extractor raises KeyError. The aggregator fetches credits before its own try
  block, so the error propagates out of the aggregator. The search then catches
  it and returns `[]`.

## Model

| member | source | states |
|---|---|---|
| Text.ParseIntOfIntText | main.py:816-817 | `int(str(n)) == n` for every integer, the step the media callback's id relies on |
| Text.SplitAfterPiece | main.py:816 | `split(sep)` of `a + sep + b`, when `a` cannot start a separator, is `a` followed by the pieces of `b` |
| Text.SplitAfterSeparatedPiece | main.py:816 | when the first piece already holds the separator, `split` yields at least three parts |
| Credits.ExtractCredits | api.py:81-106 | the extractor's loops compute `CreditsOf`: `{}` on a failed request or a payload without `cast`; KeyError when a kept cast entry, the crew, a job or a director/writer name is missing; otherwise the first `min(limit, len(cast))` names, the directors and the writers (TMDB_get_tv_series_credits_names, api.py:193-218, is the same code) |
| Credits.NoCreditsExactly | api.py:86-92 | the result is `{}` exactly when the request failed or `cast` is missing |
| Credits.MissingCrewRaises | api.py:98 | `cast` present but `crew` missing raises KeyError instead of giving `{}` |
| Credits.CastIsBoundedPrefix | api.py:88-96 | the cast list has `min(limit, len(cast))` names, those of the first cast entries in order |
| Credits.NamesWithJobMembers | api.py:98-102 | a name is among the directors (writers) exactly when some crew entry with that job carries it |
| Credits.NamesWithJobAppend | api.py:98-102 | selecting by job keeps crew order and duplicates: it commutes with concatenation |
| Credits.NamesWithJobLength | api.py:98-102 | the selection has at most as many names as the crew has entries, and exactly as many when every entry has that job |
| Aggregate.CollectGenres | api.py:135-137 | the genre loop succeeds exactly when every genre has a name, and then yields the names in order |
| Aggregate.CollectLanguages | api.py:139-141 | the language loop succeeds exactly when every spoken language has an English name, and then yields them in order |
| Aggregate.AggregateMovie | api.py:123-155 | TMDB_get_movie_additional_detail computes `MovieAggregateOf`: `{}` on a failed detail request or any missing key, the credits extractor's exception propagated, otherwise the normalised record, laid over the raw detail when `detail` is set |
| Aggregate.AggregateSeries | api.py:235-267 | TMDB_get_tv_series_additional_detail computes `SeriesAggregateOf`, the series counterpart |
| Aggregate.MovieAllOrNothing | api.py:133-152 | on the modelled payload types and unless the extractor raises, the movie aggregate is `{}` exactly when the request failed, credits were `{}` or a read key is missing; otherwise it has every normalised key |
| Aggregate.SeriesAllOrNothing | api.py:245-264 | the same all-or-nothing property for series, on the modelled payload types |
| Aggregate.CreditsRaisePropagates | api.py:132 | a credits reply that makes the extractor raise makes both aggregators raise |
| Aggregate.MovieFields | api.py:143-155 | the record's values: year is `release_date[:4]`, genres and languages in payload order, the extractor's lists; with `detail` the raw keys are kept and the record's keys win; without it exactly the seven keys |
| Aggregate.SeriesFields | api.py:255-267 | the same for series, with `year1`/`year2` the first four characters of the air dates |
| Trailers.Candidate | api.py:297-312 | each video becomes name, official, type, and a url exactly when it is on YouTube with a non-empty key |
| Trailers.SelectTrailers | api.py:284-318 | TMDB_get_trailer computes `TrailersOf`: UnboundLocalError for a kind other than movie/tv, `[]` on a failed request, KeyError on unreadable results, otherwise the ranked list cut to the limit |
| Trailers.OnlyHasRank | api.py:302-312 | every entry of a bucket has that bucket's rank |
| Trailers.OnlyAppend | api.py:296-312 | bucketing a concatenation buckets each part |
| Trailers.RankedBucket | api.py:314 | each bucket of the ranked list is that bucket of the arrivals, unchanged |
| Trailers.RankedIsPermutation | api.py:314 | the ranked list is a permutation of the videos' entries |
| Trailers.OnlyOfPrefix | api.py:318 | cutting the list keeps a prefix of each bucket |
| Trailers.RankedIsOrdered | api.py:314 | official trailers precede other trailers, which precede everything else |
| Trailers.SelectionProperties | api.py:284-318 | a failed request gives `[]`; otherwise the result has `min(limit, len(results))` entries, is a prefix of the ranked list, is ordered by rank, keeps arrival order within each bucket and holds only entries built from the payload |
| Trailers.NoOfficialTrailers | api.py:314-318 | without official trailers the result is the first non-official trailers in arrival order |
| Keys.DetailKey | api.py:340 | the detail key of a kind and an id without `-` splits on `---` into `TMDB`, the kind, the id and then the language's pieces |
| Keys.TrailerKey | main.py:855 | the trailer key of a kind and an id without `-` splits on `---` into `trailers`, the kind, the id and then the language's pieces |
| Keys.SplitCacheKey | api.py:340 | a cache key splits on `---` back into namespace, kind and id |
| Keys.CacheKeyInjective | main.py:855 | distinct (namespace, kind, id, language) never share a cache key when the first three hold no `-` |
| Keys.DetailKeyInjective | api.py:340 | detail keys of titles with non-negative integer ids coincide only for the same kind, id and language |
| Stores.Store.FindOne | api.py:340 | find_one reports whether the key is stored, and its value |
| Stores.Store.InsertOne | api.py:343-344 | insert_one under a stored key leaves the value found unchanged; otherwise it adds the key |
| Search.EnrichHit | api.py:338-357 | one loop iteration computes `EnrichHitOf`: KeyError without `media_type` or, for a title, without `id`; other kinds unchanged; a cached title merged with its stored value; a missed title's aggregate computed, inserted and merged |
| Search.SearchResponse | api.py:333-363 | TMDB_search_response_bot computes `SearchOf` and leaves the cache as `SearchOf` says: `[]` on a failed request, a missing `results` or a KeyError inside the try (cache writes made before it stay); KeyError for a reply decoded to `{}` |
| Search.OnlyKeyErrorEscapes | api.py:358 | on the modelled payload types a hit raises nothing but KeyError, so the `except KeyError` catches every modelled failure inside the loop |
| Search.CachedHitIsNotRecomputed | api.py:340-347 | a cached title is served from the cache, without changing it and whatever the catalog would reply |
| Search.MissStoresComputedValue | api.py:341-344 | on a miss the aggregate is stored even when it is `{}`, and merged into the hit |
| Search.EnrichHitCache | api.py:340-354 | a hit writes at most its own key, only when absent, and never changes an existing entry |
| Search.EnrichAllCache | api.py:337-357 | the cache only grows during a search, and each new entry is the key of one of the hits |
| Search.EnrichmentShape | api.py:337-363 | after the loop, the result has one entry per hit in order: a title is the hit updated with the aggregate stored under its key, and any other hit is unchanged |
| Search.ReplayFromCache | api.py:340-357 | replaying hits whose entries are cached fetches nothing, writes nothing and gives the same list |
| Search.RepeatedEnrichmentIsIdempotent | api.py:340-357 | a second search over the same hits is served entirely from the cache and changes nothing |
| Search.NothingToEnrich | api.py:333-363 | a failed request, a missing `results` or an empty `results` gives `[]` and leaves the cache untouched |
| Search.EnrichAllRaisesOnlyKeyError | api.py:337-358 | on the modelled payload types the loop raises nothing but KeyError |
| Search.SearchRaisesOnlyOnEmptyPayload | api.py:333-363 | on the modelled payload types the search raises exactly when the reply decoded to `{}`, and every other modelled failure gives `[]` |
| Keyboard.ComputeYear | main.py:255-261 | the year chain computes `YearLabel`: `year` for a movie, `year1-year2` or `year1` for a series, `""` otherwise, raising KeyError only for a key the and-chains read |
| Keyboard.ComputeText | main.py:263-271 | the button text is the emoji and name, then ` (year)` when the year is non-empty, then the official, non-official or ` [type]` tag |
| Keyboard.InlineKeyboardTrailer | main.py:239-276 | get_inline_keyboard_trailer computes `KeyboardOf`: no rows for no trailers, KeyError for missing year keys or a trailer without url, otherwise one URL button per trailer |
| Keyboard.NoTrailersNoRows | main.py:253-276 | no trailers give no rows, and the year keys are then never read |
| Keyboard.KeyboardRows | main.py:253-274 | rows are built exactly when the year keys are readable and every trailer has a url; then there is one single-button row per trailer, in order, linking to it and starting with its name |
| Keyboard.MovieYearLabel | main.py:256-257 | a movie shows `year` when it is set and nothing otherwise, and a missing `year` raises KeyError |
| Keyboard.SeriesYearLabel | main.py:258-261 | a series shows `year1-year2` when both are set, `year1` when only it is set, nothing when `year1` is empty |
| Keyboard.SeriesYearShortCircuits | main.py:258-261 | an empty `year1` shows no year even when `year2` is missing |
| Keyboard.TagMatchesRank | main.py:266-271 | the tag agrees with the trailer's selection bucket: official trailers are tagged official, exactly the non-official trailers get the non-official tag, and the type tag shows exactly the other non-official videos |
| Keyboard.ReversedIndex | main.py:870 | `[::-1]` keeps the length and mirrors positions |
| Keyboard.DisplayOrder | main.py:869-870 | as displayed, row `j` links to trailer `len - 1 - j`, so the best-ranked trailer is at the bottom |
| Stores.Store.Upsert | main.py:861-866 | update_one with upsert stores the value under the key, whether or not it was there |
| TrailerCache.Resolve | main.py:855-868 | the lookup block computes `ResolveOf`: a cached list as stored; on a miss, the fetch in the language asked for, again in en-US when a fa-IR fetch found none, upserted under the original key; no write when the fetch raises |
| TrailerCache.DisplayedRows | main.py:855-870 | the handler chain of lookup, keyboard and `[::-1]` computes `DisplayedRowsOf` |
| TrailerCache.CachedTrailersServed | main.py:856-868 | a cached entry is used as stored, whatever the catalog would reply |
| TrailerCache.FallbackOnlyForEmptyPersian | main.py:858-860 | the en-US request matters only for a fa-IR lookup whose own fetch found nothing |
| TrailerCache.PersianFallbackStoredUnderPersianKey | main.py:858-866 | the en-US trailers of a fa-IR fallback are returned and stored under the fa-IR key; the en-US entry is not touched |
| TrailerCache.RaiseLeavesCacheAlone | main.py:857-866 | a fetch that raises writes nothing |
| TrailerCache.ResolveIsIdempotent | main.py:855-868 | after a lookup that returned trailers, even none, the next lookup returns the same list and writes nothing |
| TrailerCache.ResolveWritesOneKey | main.py:861-866 | a lookup writes at most its own key |
| TrailerCache.DisplayedRowsFromFreshFetch | main.py:855-870 | on a fresh fetch with a result, exactly one row is shown, linking to the best-ranked trailer of the videos |
| Callbacks.EncodeMedia | main.py:779 | the data is the media type, a `-`, and a text that is a plain run of digits exactly when the id is non-negative |
| Callbacks.DecodeMedia | main.py:816-817 | the only exception is ValueError; on success the data is the media type, which holds no `-`, then `-`, then a text `int()` reads as the id |
| Callbacks.EncodeLang | main.py:376 | the data splits on `---` into `userlang` followed by the pieces of the language |
| Callbacks.DecodeLang | main.py:405 | the only exception is ValueError; on success the data holds `---` exactly once and the language is what follows it |
| Callbacks.MediaPattern | main.py:1228 | with ASCII digits, data passes `^(movie\|tv)?\-\d+$` exactly when `split('-')` gives two pieces, `""`, movie or tv and then a run of digits |
| Callbacks.LangPattern | main.py:1231 | for the ASCII, newline-free form of the filter, data that passes `^userlang\-\-\-[\w-]+$` splits on `---` into `userlang` and at least one more piece |
| Callbacks.MediaRoundTrip | main.py:816-817 | `media_type-id` decodes back to its media type and id exactly when the type holds no `-` and the id is non-negative; otherwise unpacking raises ValueError |
| Callbacks.MediaPatternDecodes | main.py:1228 | data that passes the ASCII form of `^(movie\|tv)?\-\d+$` always decodes, to `""`, movie or tv and a non-negative id |
| Callbacks.EncodedMediaPassesFilter | main.py:779 | a movie or tv button passes its handler's filter exactly when the id is non-negative |
| Callbacks.LangRoundTrip | main.py:405 | `userlang---lang` decodes back to `lang` exactly when `lang` holds no `---` |
| Callbacks.BotLanguagesRoundTrip | main.py:376-379 | both language buttons the bot sends (en-US, fa-IR) pass the filter and decode back |
| Callbacks.LangFilterAdmitsUndecodable | main.py:1231 | `^userlang\-\-\-[\w-]+$` lets through a language holding `---`, which the handler's unpacking rejects with ValueError |

## Left out

- HTTP requests, the JSON decoding of replies and the MongoDB client are not
  modelled. Replies are values given by a `Catalog`. The collections are
  in-memory maps, with no concurrency between handlers and no duplicate
  documents.
- Payload values the code does not read, and JSON of another type in the
  fields it reads, are not modelled: floats, a `null` date (on which `[:4]`
  raises TypeError, api.py:149 and api.py:260-261), and a `null` `cast`,
  `crew`, `genres` or `spoken_languages` (on which `len()` or iteration raises
  TypeError: api.py:89-90, 98, 136 and 140 for movies; api.py:201-202, 210,
  248 and 252 for series). Such a TypeError is not caught by the
  `except KeyError` of the aggregators (api.py:151 and api.py:263) or of the
  search (api.py:358), so it escapes both.
- Aggregate.MovieAllOrNothing, Aggregate.SeriesAllOrNothing: hold for the
  modelled payload types only; a TypeError from the payloads above escapes
  instead of giving `{}`.
- Search.OnlyKeyErrorEscapes, Search.EnrichAllRaisesOnlyKeyError: hold for the
  modelled payload types only; the TypeError above also escapes a hit and the
  loop.
- Search.SearchRaisesOnlyOnEmptyPayload: holds for the modelled payload types
  only; the search also raises TypeError on the payloads above.
- `PyStr` of a list or an object is not modelled: it gives a placeholder
  rather than Python's repr. Keys and callbacks only format scalar ids.
- `ParseInt` is `int()` for an optional sign followed by ASCII digits. It
  does not accept surrounding whitespace, underscores or non-ASCII digits.
- Callbacks.MediaPattern, Callbacks.MediaPatternDecodes: the filter's `\d` is
  ASCII digits only, while Python's `\d` also matches other Unicode decimal
  digits (which `int()` accepts too). Python's `$` also matches just before a
  trailing newline, so `re.match` admits `"movie-5\n"`; the model does not.
- Callbacks.LangPattern: `\w` is restricted to ASCII letters, digits and `_`;
  Python's Unicode word characters are not modelled. Python's `$` also matches
  just before a trailing newline, so `re.match` admits `"userlang---en\n"`;
  the model does not.
- The media callback is encoded from a media type and an integer id.
  `item['media_type']` and `item['id']` being missing from the hit is not
  modelled.
- The localized string table (`movie_and_tv_detail_lang`) is not modelled.
  The official and non-official tag words are a `TagWords` parameter.
- The detail-cache lookups inside the callback and inline handlers are not
  modelled. Neither are the message formatting (TMDB_MOVIE_or_TV_series_detail)
  or the Telegram calls that send and edit messages. Only the trailer lookup
  block, the keyboard and its reversal are.
- The search's mutation of the hits in place is modelled as a new list. No
  caller observes the hits after a KeyError.
- `Stores.Store.InsertOne` keeps the first value under a key, because
  find_one returns the earliest matching document. The store does not keep the
  later duplicate documents.
