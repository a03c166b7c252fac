/**
 * The catalog's (TMDB's) replies, as the bot reads them. Each dictionary key the
 * code subscripts is an Option field: None is a payload without that key, which
 * makes the subscript raise KeyError. The HTTP calls themselves are not modelled:
 * a Catalog is the function from request parameters to the reply it gets.
 */
module Catalog {
  import opened Outcomes
  import opened Json

  const MovieKind := "movie"
  const TvKind := "tv"

  /** The two languages the bot offers (ENG_LANG and FA_LANG). */
  const EnglishLanguage := "en-US"
  const PersianLanguage := "fa-IR"

  /** An HTTP reply: status code and decoded body. */
  datatype Reply<T> = Reply(status: int, body: T) {
    predicate Succeeded() { status == 200 }
  }

  /** One entry of `cast` in a credits payload. */
  datatype CastMember = CastMember(name: Option<string>)

  /** One entry of `crew` in a credits payload. */
  datatype CrewMember = CrewMember(job: Option<string>, name: Option<string>)

  /** A /credits payload. */
  datatype CreditsPayload = CreditsPayload(cast: Option<seq<CastMember>>, crew: Option<seq<CrewMember>>)

  /** One entry of `genres` in a detail payload. */
  datatype Genre = Genre(name: Option<string>)

  /** One entry of `spoken_languages` in a detail payload. */
  datatype SpokenLanguage = SpokenLanguage(englishName: Option<string>)

  /**
   * A movie or TV detail payload: the fields the aggregator reads, and `raw`,
   * the whole decoded object, which the aggregator returns underneath its own
   * fields when asked for the full detail.
   */
  datatype DetailPayload = DetailPayload(
    genres: Option<seq<Genre>>,
    spokenLanguages: Option<seq<SpokenLanguage>>,
    imdbId: Option<Json>,
    releaseDate: Option<string>,
    firstAirDate: Option<string>,
    lastAirDate: Option<string>,
    raw: Object)

  /** One entry of `results` in a /videos payload. */
  datatype Video = Video(
    name: Option<string>,
    official: Option<bool>,
    kind: Option<string>,  // the `type` key
    site: Option<string>,
    key: Option<string>)

  /** A /videos payload. */
  datatype VideosPayload = VideosPayload(results: Option<seq<Video>>)

  /** A /search/multi payload: `results`, and every other key of the object. */
  datatype SearchPayload = SearchPayload(results: Option<seq<Object>>, others: Object) {
    /** Python truthiness of the decoded dict: false only for `{}`. */
    predicate NonEmpty() { results.Some? || others != map[] }
  }

  /**
   * The catalog as the bot sees it. Every request names the media kind, the
   * title id as it is formatted into the URL, and the language.
   */
  datatype Catalog = Catalog(
    search: (string, string) -> Reply<SearchPayload>,
    detail: (string, string, string) -> Reply<DetailPayload>,
    credits: (string, string, string) -> Reply<CreditsPayload>,
    videos: (string, string, string) -> Reply<VideosPayload>)
}
