/**
 * Detail aggregation: TMDB_get_movie_additional_detail and
 * TMDB_get_tv_series_additional_detail. A detail reply and a credits reply are
 * merged into one normalised dict; any missing key inside the try block yields
 * `{}`, never a partly filled dict.
 */
module Aggregate {
  import opened Outcomes
  import opened Text
  import opened Json
  import opened Catalog
  import opened Credits

  /** The number of cast names the aggregator asks for unless told otherwise. */
  const DefaultCastLimit := 5

  const MovieKeys: set<string> := {"imdb_id", "languages", "genres", "casts", "directors", "writers", "year"}
  const SeriesKeys: set<string> := {"languages", "genres", "casts", "directors", "writers", "year1", "year2"}

  predicate GenresNamed(gs: seq<Genre>) {
    forall i :: 0 <= i < |gs| ==> gs[i].name.Some?
  }

  /** The `name` of every genre, in payload order. */
  function GenreNames(gs: seq<Genre>): seq<string>
    requires GenresNamed(gs)
  {
    seq(|gs|, i requires 0 <= i < |gs| => gs[i].name.value)
  }

  predicate LanguagesNamed(ls: seq<SpokenLanguage>) {
    forall i :: 0 <= i < |ls| ==> ls[i].englishName.Some?
  }

  /** The `english_name` of every spoken language, in payload order. */
  function LanguageNames(ls: seq<SpokenLanguage>): seq<string>
    requires LanguagesNamed(ls)
  {
    seq(|ls|, i requires 0 <= i < |ls| => ls[i].englishName.value)
  }

  /** The normalised record, before it becomes a dict. */
  datatype Normalized =
    | MovieDetail(imdbId: Json, languages: seq<string>, genres: seq<string>,
                  casts: seq<string>, directors: seq<string>, writers: seq<string>, year: string)
    | SeriesDetail(languages: seq<string>, genres: seq<string>,
                   casts: seq<string>, directors: seq<string>, writers: seq<string>, year1: string, year2: string)
  {
    /** The dict the aggregator fills key by key. */
    function Fields(): Object {
      match this
      case MovieDetail(imdbId, languages, genres, casts, directors, writers, year) =>
        map["imdb_id" := imdbId, "languages" := Strings(languages), "genres" := Strings(genres),
            "casts" := Strings(casts), "directors" := Strings(directors), "writers" := Strings(writers),
            "year" := JStr(year)]
      case SeriesDetail(languages, genres, casts, directors, writers, year1, year2) =>
        map["languages" := Strings(languages), "genres" := Strings(genres),
            "casts" := Strings(casts), "directors" := Strings(directors), "writers" := Strings(writers),
            "year1" := JStr(year1), "year2" := JStr(year2)]
    }
  }

  /** Every key the movie try block reads is present; otherwise it ends in KeyError. */
  predicate MovieReadable(d: DetailPayload, c: Credits) {
    && d.genres.Some? && GenresNamed(d.genres.value)
    && d.spokenLanguages.Some? && LanguagesNamed(d.spokenLanguages.value)
    && d.imdbId.Some? && c.Credits? && d.releaseDate.Some?
  }

  /** Every key the series try block reads is present; otherwise it ends in KeyError. */
  predicate SeriesReadable(d: DetailPayload, c: Credits) {
    && d.genres.Some? && GenresNamed(d.genres.value)
    && d.spokenLanguages.Some? && LanguagesNamed(d.spokenLanguages.value)
    && c.Credits? && d.firstAirDate.Some? && d.lastAirDate.Some?
  }

  function MovieRecord(d: DetailPayload, c: Credits): Normalized
    requires MovieReadable(d, c)
  {
    MovieDetail(d.imdbId.value, LanguageNames(d.spokenLanguages.value), GenreNames(d.genres.value),
                c.casts, c.directors, c.writers, PyPrefix(d.releaseDate.value, 4))
  }

  function SeriesRecord(d: DetailPayload, c: Credits): Normalized
    requires SeriesReadable(d, c)
  {
    SeriesDetail(LanguageNames(d.spokenLanguages.value), GenreNames(d.genres.value),
                 c.casts, c.directors, c.writers,
                 PyPrefix(d.firstAirDate.value, 4), PyPrefix(d.lastAirDate.value, 4))
  }

  /** `{**response, **record}` when the raw detail is asked for, else the record alone. */
  function Finish(d: DetailPayload, record: Normalized, includeRaw: bool): Object {
    if includeRaw then d.raw + record.Fields() else record.Fields()
  }

  /** What TMDB_get_movie_additional_detail returns, or raises. */
  function MovieAggregateOf(detail: Reply<DetailPayload>, credits: Reply<CreditsPayload>,
                            castLimit: int, includeRaw: bool): Outcome<Object>
  {
    if !detail.Succeeded() then Ok(map[])
    else match CreditsOf(credits, castLimit)
      case Raise(e) => Raise(e)
      case Ok(c) =>
        if MovieReadable(detail.body, c) then Ok(Finish(detail.body, MovieRecord(detail.body, c), includeRaw))
        else Ok(map[])
  }

  /** What TMDB_get_tv_series_additional_detail returns, or raises. */
  function SeriesAggregateOf(detail: Reply<DetailPayload>, credits: Reply<CreditsPayload>,
                             castLimit: int, includeRaw: bool): Outcome<Object>
  {
    if !detail.Succeeded() then Ok(map[])
    else match CreditsOf(credits, castLimit)
      case Raise(e) => Raise(e)
      case Ok(c) =>
        if SeriesReadable(detail.body, c) then Ok(Finish(detail.body, SeriesRecord(detail.body, c), includeRaw))
        else Ok(map[])
  }

  // ---------------------------------------------------------------- the loops

  /** The genres loop; None is the KeyError of a genre without `name`. */
  method CollectGenres(gs: seq<Genre>) returns (r: Option<seq<string>>)
    ensures r.Some? <==> GenresNamed(gs)
    ensures r.Some? ==> r.value == GenreNames(gs)
  {
    var genres: seq<string> := [];
    for i := 0 to |gs|
      invariant GenresNamed(gs[..i])
      invariant genres == GenreNames(gs[..i])
    {
      if gs[i].name.None? {
        return None;
      }
      genres := genres + [gs[i].name.value];
    }
    assert gs[..|gs|] == gs;
    return Some(genres);
  }

  /** The spoken-languages loop; None is the KeyError of an entry without `english_name`. */
  method CollectLanguages(ls: seq<SpokenLanguage>) returns (r: Option<seq<string>>)
    ensures r.Some? <==> LanguagesNamed(ls)
    ensures r.Some? ==> r.value == LanguageNames(ls)
  {
    var languages: seq<string> := [];
    for i := 0 to |ls|
      invariant LanguagesNamed(ls[..i])
      invariant languages == LanguageNames(ls[..i])
    {
      if ls[i].englishName.None? {
        return None;
      }
      languages := languages + [ls[i].englishName.value];
    }
    assert ls[..|ls|] == ls;
    return Some(languages);
  }

  /** TMDB_get_movie_additional_detail, with the two fetches given as replies. */
  method AggregateMovie(detail: Reply<DetailPayload>, creditsReply: Reply<CreditsPayload>,
                        castLimit: int, includeRaw: bool) returns (r: Outcome<Object>)
    ensures r == MovieAggregateOf(detail, creditsReply, castLimit, includeRaw)
  {
    if detail.status != 200 {
      return Ok(map[]);
    }
    var credits := ExtractCredits(creditsReply, castLimit);
    if credits.Raise? {
      return Raise(credits.exc);
    }
    var response := detail.body;
    var movieDetail: Object := map[];

    if response.genres.None? {
      return Ok(map[]);
    }
    var genres := CollectGenres(response.genres.value);
    if genres.None? {
      return Ok(map[]);
    }
    if response.spokenLanguages.None? {
      return Ok(map[]);
    }
    var languages := CollectLanguages(response.spokenLanguages.value);
    if languages.None? {
      return Ok(map[]);
    }
    if response.imdbId.None? {
      return Ok(map[]);
    }
    movieDetail := movieDetail["imdb_id" := response.imdbId.value];
    movieDetail := movieDetail["languages" := Strings(languages.value)];
    movieDetail := movieDetail["genres" := Strings(genres.value)];
    if credits.value.NoCredits? {
      return Ok(map[]);
    }
    movieDetail := movieDetail["casts" := Strings(credits.value.casts)];
    movieDetail := movieDetail["directors" := Strings(credits.value.directors)];
    movieDetail := movieDetail["writers" := Strings(credits.value.writers)];
    if response.releaseDate.None? {
      return Ok(map[]);
    }
    movieDetail := movieDetail["year" := JStr(PyPrefix(response.releaseDate.value, 4))];

    assert movieDetail == MovieRecord(response, credits.value).Fields();
    if includeRaw {
      return Ok(response.raw + movieDetail);
    }
    return Ok(movieDetail);
  }

  /** TMDB_get_tv_series_additional_detail, with the two fetches given as replies. */
  method AggregateSeries(detail: Reply<DetailPayload>, creditsReply: Reply<CreditsPayload>,
                         castLimit: int, includeRaw: bool) returns (r: Outcome<Object>)
    ensures r == SeriesAggregateOf(detail, creditsReply, castLimit, includeRaw)
  {
    if detail.status != 200 {
      return Ok(map[]);
    }
    var credits := ExtractCredits(creditsReply, castLimit);
    if credits.Raise? {
      return Raise(credits.exc);
    }
    var response := detail.body;
    var seriesDetail: Object := map[];

    if response.genres.None? {
      return Ok(map[]);
    }
    var genres := CollectGenres(response.genres.value);
    if genres.None? {
      return Ok(map[]);
    }
    if response.spokenLanguages.None? {
      return Ok(map[]);
    }
    var languages := CollectLanguages(response.spokenLanguages.value);
    if languages.None? {
      return Ok(map[]);
    }
    seriesDetail := seriesDetail["languages" := Strings(languages.value)];
    seriesDetail := seriesDetail["genres" := Strings(genres.value)];
    if credits.value.NoCredits? {
      return Ok(map[]);
    }
    seriesDetail := seriesDetail["casts" := Strings(credits.value.casts)];
    seriesDetail := seriesDetail["directors" := Strings(credits.value.directors)];
    seriesDetail := seriesDetail["writers" := Strings(credits.value.writers)];
    if response.firstAirDate.None? {
      return Ok(map[]);
    }
    seriesDetail := seriesDetail["year1" := JStr(PyPrefix(response.firstAirDate.value, 4))];
    if response.lastAirDate.None? {
      return Ok(map[]);
    }
    seriesDetail := seriesDetail["year2" := JStr(PyPrefix(response.lastAirDate.value, 4))];

    assert seriesDetail == SeriesRecord(response, credits.value).Fields();
    if includeRaw {
      return Ok(response.raw + seriesDetail);
    }
    return Ok(seriesDetail);
  }

  // ---------------------------------------------------------------- properties

  /**
   * All or nothing: unless the credits extractor raises, the movie aggregate is
   * `{}` exactly when the detail request failed, the credits came back `{}`, or
   * a key the try block reads is missing; otherwise it holds every normalised key.
   */
  lemma MovieAllOrNothing(detail: Reply<DetailPayload>, credits: Reply<CreditsPayload>,
                          castLimit: int, includeRaw: bool)
    requires CreditsOf(credits, castLimit).Ok?
    ensures var r := MovieAggregateOf(detail, credits, castLimit, includeRaw);
            var d := detail.body;
            && r.Ok?
            && (r.value == map[] <==>
                  || !detail.Succeeded()
                  || CreditsOf(credits, castLimit).value.NoCredits?
                  || d.genres.None? || d.spokenLanguages.None? || d.imdbId.None? || d.releaseDate.None?
                  || (exists i :: 0 <= i < |d.genres.value| && d.genres.value[i].name.None?)
                  || (exists i :: 0 <= i < |d.spokenLanguages.value| && d.spokenLanguages.value[i].englishName.None?))
            && (r.value != map[] ==> MovieKeys <= r.value.Keys)
  {
    var r := MovieAggregateOf(detail, credits, castLimit, includeRaw);
    if detail.Succeeded() && MovieReadable(detail.body, CreditsOf(credits, castLimit).value) {
      assert "year" in r.value;
    }
  }

  /**
   * All or nothing for series: `{}` exactly when the detail request failed,
   * the credits came back `{}`, or a key the try block reads is missing.
   */
  lemma SeriesAllOrNothing(detail: Reply<DetailPayload>, credits: Reply<CreditsPayload>,
                           castLimit: int, includeRaw: bool)
    requires CreditsOf(credits, castLimit).Ok?
    ensures var r := SeriesAggregateOf(detail, credits, castLimit, includeRaw);
            var d := detail.body;
            && r.Ok?
            && (r.value == map[] <==>
                  || !detail.Succeeded()
                  || CreditsOf(credits, castLimit).value.NoCredits?
                  || d.genres.None? || d.spokenLanguages.None? || d.firstAirDate.None? || d.lastAirDate.None?
                  || (exists i :: 0 <= i < |d.genres.value| && d.genres.value[i].name.None?)
                  || (exists i :: 0 <= i < |d.spokenLanguages.value| && d.spokenLanguages.value[i].englishName.None?))
            && (r.value != map[] ==> SeriesKeys <= r.value.Keys)
  {
    var r := SeriesAggregateOf(detail, credits, castLimit, includeRaw);
    if detail.Succeeded() && SeriesReadable(detail.body, CreditsOf(credits, castLimit).value) {
      assert "year1" in r.value;
    }
  }

  /** A credits reply that makes the extractor raise makes the aggregator raise too. */
  lemma CreditsRaisePropagates(detail: Reply<DetailPayload>, credits: Reply<CreditsPayload>,
                               castLimit: int, includeRaw: bool)
    requires detail.Succeeded() && CreditsOf(credits, castLimit).Raise?
    ensures MovieAggregateOf(detail, credits, castLimit, includeRaw).Raise?
    ensures SeriesAggregateOf(detail, credits, castLimit, includeRaw).Raise?
  {
  }

  /**
   * The fields of a successful movie aggregate: the year is the first four
   * characters of release_date, genres and languages are the payload's names in
   * order, and casts, directors and writers are the extractor's lists. With the
   * raw detail the payload's other keys are kept and the normalised keys win;
   * without it only the normalised keys are there.
   */
  lemma MovieFields(detail: Reply<DetailPayload>, credits: Reply<CreditsPayload>,
                    castLimit: int, includeRaw: bool)
    requires detail.Succeeded() && CreditsOf(credits, castLimit).Ok?
    requires MovieReadable(detail.body, CreditsOf(credits, castLimit).value)
    ensures var r := MovieAggregateOf(detail, credits, castLimit, includeRaw).value;
            var d := detail.body;
            var c := CreditsOf(credits, castLimit).value;
            var date := d.releaseDate.value;
            var gs := d.genres.value;
            var ls := d.spokenLanguages.value;
            && r["year"] == JStr(date[..if |date| < 4 then |date| else 4])
            && r["imdb_id"] == d.imdbId.value
            && r["genres"] == JArr(seq(|gs|, i requires 0 <= i < |gs| => JStr(gs[i].name.value)))
            && r["languages"] == JArr(seq(|ls|, i requires 0 <= i < |ls| => JStr(ls[i].englishName.value)))
            && r["casts"] == Strings(c.casts)
            && r["directors"] == Strings(c.directors)
            && r["writers"] == Strings(c.writers)
            && (includeRaw ==> r.Keys == d.raw.Keys + MovieKeys)
            && (includeRaw ==> forall k :: k in d.raw && k !in MovieKeys ==> r[k] == d.raw[k])
            && (!includeRaw ==> r.Keys == MovieKeys)
  {
  }

  /**
   * The fields of a successful series aggregate: year1 and year2 are the first
   * four characters of first_air_date and last_air_date.
   */
  lemma SeriesFields(detail: Reply<DetailPayload>, credits: Reply<CreditsPayload>,
                     castLimit: int, includeRaw: bool)
    requires detail.Succeeded() && CreditsOf(credits, castLimit).Ok?
    requires SeriesReadable(detail.body, CreditsOf(credits, castLimit).value)
    ensures var r := SeriesAggregateOf(detail, credits, castLimit, includeRaw).value;
            var d := detail.body;
            var c := CreditsOf(credits, castLimit).value;
            var first := d.firstAirDate.value;
            var last := d.lastAirDate.value;
            var gs := d.genres.value;
            var ls := d.spokenLanguages.value;
            && r["year1"] == JStr(first[..if |first| < 4 then |first| else 4])
            && r["year2"] == JStr(last[..if |last| < 4 then |last| else 4])
            && r["genres"] == JArr(seq(|gs|, i requires 0 <= i < |gs| => JStr(gs[i].name.value)))
            && r["languages"] == JArr(seq(|ls|, i requires 0 <= i < |ls| => JStr(ls[i].englishName.value)))
            && r["casts"] == Strings(c.casts)
            && r["directors"] == Strings(c.directors)
            && r["writers"] == Strings(c.writers)
            && (includeRaw ==> r.Keys == d.raw.Keys + SeriesKeys)
            && (includeRaw ==> forall k :: k in d.raw && k !in SeriesKeys ==> r[k] == d.raw[k])
            && (!includeRaw ==> r.Keys == SeriesKeys)
  {
  }
}
