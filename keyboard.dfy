/**
 * The trailer buttons of a result card: get_inline_keyboard_trailer builds one
 * row with one URL button per trailer, labelled with the trailer's name, the
 * title's year and a tag; the handlers show the rows in reverse order.
 */
module Keyboard {
  import opened Outcomes
  import opened Json
  import opened Catalog
  import opened Trailers

  /** The label that opens every button: the television emoji and a space. */
  const TvEmoji := "\U{1F4FA} "

  /** An InlineKeyboardButton with a URL. */
  datatype Button = Button(text: string, url: string)

  /** One keyboard row. */
  type Row = seq<Button>

  /**
   * The year shown after the name: `year` for a movie, `year1-year2` or `year1`
   * for a series, "" when those are empty or the kind is neither. Only the keys
   * the and-chains reach are read, so only those raise KeyError when missing.
   */
  function YearLabel(kind: string, item: Object): Outcome<string> {
    if kind == MovieKind then
      if "year" !in item then Raise(KeyError)
      else if Truthy(item["year"]) then Ok(PyStr(item["year"]))
      else Ok("")
    else if kind == TvKind then
      if "year1" !in item then Raise(KeyError)
      else if !Truthy(item["year1"]) then Ok("")
      else if "year2" !in item then Raise(KeyError)
      else if Truthy(item["year2"]) then Ok(PyStr(item["year1"]) + "-" + PyStr(item["year2"]))
      else Ok(PyStr(item["year1"]))
    else Ok("")
  }

  /** Which bracketed tag a trailer gets. */
  datatype Tag = OfficialTag | NonOfficialTag | TypeTag(kind: string)

  function TagOf(t: Trailer): Tag {
    if t.official then OfficialTag
    else if t.kind == TrailerType then NonOfficialTag
    else TypeTag(t.kind)
  }

  /** The localized words for the two fixed tags, in the user's language. */
  datatype TagWords = TagWords(official: string, nonOfficial: string)

  function TagText(tag: Tag, words: TagWords): string {
    match tag
    case OfficialTag => words.official
    case NonOfficialTag => words.nonOfficial
    case TypeTag(kind) => kind
  }

  /** "📺 <name>", then " (<year>)" when the year is non-empty, then " [<tag>]". */
  function ButtonText(t: Trailer, year: string, words: TagWords): string {
    TvEmoji + t.name + (if year != "" then " (" + year + ")" else "") + " [" + TagText(TagOf(t), words) + "]"
  }

  predicate AllPlayable(ts: seq<Trailer>) {
    forall i :: 0 <= i < |ts| ==> ts[i].url.Some?
  }

  /** The row for one playable trailer. */
  function RowOf(t: Trailer, year: string, words: TagWords): Row
    requires t.url.Some?
  {
    [Button(ButtonText(t, year, words), t.url.value)]
  }

  /**
   * What get_inline_keyboard_trailer returns, or raises: no rows for no
   * trailers; otherwise KeyError when the year keys or a trailer's url are
   * missing, else one row per trailer in order.
   */
  function KeyboardOf(trailers: seq<Trailer>, kind: string, item: Object, words: TagWords): Outcome<seq<Row>> {
    if trailers == [] then Ok([])
    else match YearLabel(kind, item)
      case Raise(e) => Raise(e)
      case Ok(year) =>
        if !AllPlayable(trailers) then Raise(KeyError)
        else Ok(seq(|trailers|, i requires 0 <= i < |trailers| && AllPlayable(trailers) => RowOf(trailers[i], year, words)))
  }

  /** The if/elif chain that sets `year`, run once per trailer. */
  method ComputeYear(kind: string, item: Object) returns (r: Outcome<string>)
    ensures r == YearLabel(kind, item)
  {
    var year := "";
    if kind == MovieKind {
      if "year" !in item {
        return Raise(KeyError);
      }
      if Truthy(item["year"]) {
        year := PyStr(item["year"]);
      }
    } else if kind == TvKind {
      if "year1" !in item {
        return Raise(KeyError);
      }
      if Truthy(item["year1"]) {
        if "year2" !in item {
          return Raise(KeyError);
        }
        if Truthy(item["year2"]) {
          year := PyStr(item["year1"]) + "-" + PyStr(item["year2"]);
        } else {
          year := PyStr(item["year1"]);
        }
      }
    }
    return Ok(year);
  }

  /** The statements that build `text` for one trailer. */
  method ComputeText(trailer: Trailer, year: string, words: TagWords) returns (text: string)
    ensures text == ButtonText(trailer, year, words)
  {
    text := TvEmoji + trailer.name;
    if year != "" {
      text := text + " (" + year + ")";
    }
    if trailer.official {
      text := text + " [" + words.official + "]";
    } else if trailer.kind == TrailerType {
      text := text + " [" + words.nonOfficial + "]";
    } else {
      text := text + " [" + trailer.kind + "]";
    }
  }

  /** get_inline_keyboard_trailer; the localized tag words are given. */
  method InlineKeyboardTrailer(trailers: seq<Trailer>, kind: string, item: Object, words: TagWords)
    returns (r: Outcome<seq<Row>>)
    ensures r == KeyboardOf(trailers, kind, item, words)
  {
    var keyboards: seq<Row> := [];
    for i := 0 to |trailers|
      invariant i > 0 ==> YearLabel(kind, item).Ok?
      invariant AllPlayable(trailers[..i])
      invariant |keyboards| == i
      invariant forall j :: 0 <= j < i ==> keyboards[j] == RowOf(trailers[j], YearLabel(kind, item).value, words)
    {
      var trailer := trailers[i];
      var year := ComputeYear(kind, item);
      if year.Raise? {
        return Raise(year.exc);
      }
      var text := ComputeText(trailer, year.value, words);
      if trailer.url.None? {
        return Raise(KeyError);
      }
      keyboards := keyboards + [[Button(text, trailer.url.value)]];
    }
    assert trailers[..|trailers|] == trailers;
    if trailers != [] {
      assert keyboards == KeyboardOf(trailers, kind, item, words).value;
    }
    return Ok(keyboards);
  }

  /** inline_keyboards[::-1]: the display order of the rows. */
  function Reversed<T>(s: seq<T>): seq<T> {
    if s == [] then [] else Reversed(s[1..]) + [s[0]]
  }

  // ---------------------------------------------------------------- properties

  /** Without trailers there are no rows, and the title's year keys are never read. */
  lemma NoTrailersNoRows(kind: string, item: Object, words: TagWords)
    ensures KeyboardOf([], kind, item, words) == Ok([])
  {
  }

  /**
   * The keyboard is built exactly when the year keys are readable and every
   * trailer has a url; it then has one single-button row per trailer, in
   * order, linking to that trailer and naming it.
   */
  lemma KeyboardRows(trailers: seq<Trailer>, kind: string, item: Object, words: TagWords)
    requires trailers != []
    ensures KeyboardOf(trailers, kind, item, words).Ok? <==> YearLabel(kind, item).Ok? && AllPlayable(trailers)
    ensures KeyboardOf(trailers, kind, item, words).Raise? ==> KeyboardOf(trailers, kind, item, words).exc == KeyError
    ensures KeyboardOf(trailers, kind, item, words).Ok? ==>
              var rows: seq<Row> := KeyboardOf(trailers, kind, item, words).value;
              && |rows| == |trailers|
              && forall i :: 0 <= i < |rows| ==>
                   && |rows[i]| == 1
                   && Some(rows[i][0].url) == trailers[i].url
                   && rows[i][0].text[..|TvEmoji + trailers[i].name|] == TvEmoji + trailers[i].name
  {
    if KeyboardOf(trailers, kind, item, words).Ok? {
      var rows: seq<Row> := KeyboardOf(trailers, kind, item, words).value;
      var year := YearLabel(kind, item).value;
      forall i | 0 <= i < |rows|
        ensures rows[i][0].text[..|TvEmoji + trailers[i].name|] == TvEmoji + trailers[i].name
      {
        var t := trailers[i];
        var text := ButtonText(t, year, words);
        var tail := (if year != "" then " (" + year + ")" else "") + " [" + TagText(TagOf(t), words) + "]";
        assert text == (TvEmoji + t.name) + tail;
      }
    }
  }

  /** The year of a movie: `year` when it is set, nothing when it is empty; a missing `year` raises KeyError. */
  lemma MovieYearLabel(item: Object)
    ensures "year" !in item ==> YearLabel(MovieKind, item) == Raise(KeyError)
    ensures "year" in item && Truthy(item["year"]) ==> YearLabel(MovieKind, item) == Ok(PyStr(item["year"]))
    ensures "year" in item && !Truthy(item["year"]) ==> YearLabel(MovieKind, item) == Ok("")
  {
  }

  /**
   * The year of a series: both years joined by '-' when both are set, the first
   * alone when only it is set, nothing when the first is empty.
   */
  lemma SeriesYearLabel(item: Object)
    requires "year1" in item && "year2" in item
    ensures var y1 := item["year1"];
            var y2 := item["year2"];
            && (Truthy(y1) && Truthy(y2) ==> YearLabel(TvKind, item) == Ok(PyStr(y1) + "-" + PyStr(y2)))
            && (Truthy(y1) && !Truthy(y2) ==> YearLabel(TvKind, item) == Ok(PyStr(y1)))
            && (!Truthy(y1) ==> YearLabel(TvKind, item) == Ok(""))
  {
  }

  /** A series whose first year is empty shows no year even when `year2` is missing. */
  lemma SeriesYearShortCircuits(item: Object)
    requires "year1" in item && !Truthy(item["year1"])
    ensures YearLabel(TvKind, item) == Ok("")
  {
  }

  /**
   * The tag agrees with the trailer's priority bucket: the top bucket is
   * always tagged official, the middle bucket exactly gets the non-official
   * tag, and a type tag shows exactly the non-official videos of the last bucket.
   */
  lemma TagMatchesRank(t: Trailer)
    ensures Rank(t) == 0 ==> TagOf(t) == OfficialTag
    ensures Rank(t) == 1 <==> TagOf(t) == NonOfficialTag
    ensures TagOf(t).TypeTag? <==> Rank(t) == 2 && !t.official
    ensures TagOf(t).TypeTag? ==> TagOf(t).kind == t.kind
  {
  }

  /** Reversal keeps the rows and mirrors their positions. */
  lemma {:induction false} ReversedIndex<T>(s: seq<T>)
    ensures |Reversed(s)| == |s|
    ensures forall j :: 0 <= j < |s| ==> Reversed(s)[j] == s[|s| - 1 - j]
    decreases |s|
  {
    if s != [] {
      ReversedIndex(s[1..]);
      var r := Reversed(s);
      forall j | 0 <= j < |s|
        ensures r[j] == s[|s| - 1 - j]
      {
        if j < |s| - 1 {
          assert r[j] == Reversed(s[1..])[j];
          assert s[1..][|s[1..]| - 1 - j] == s[|s| - 1 - j];
        }
      }
    }
  }

  /**
   * As displayed, the best-ranked trailer's button is the bottom row and the
   * rows run from the last trailer kept to the first.
   */
  lemma DisplayOrder(trailers: seq<Trailer>, kind: string, item: Object, words: TagWords)
    requires KeyboardOf(trailers, kind, item, words).Ok?
    ensures var rows: seq<Row> := KeyboardOf(trailers, kind, item, words).value;
            var shown: seq<Row> := Reversed(rows);
            && |shown| == |trailers|
            && forall j :: 0 <= j < |shown| ==>
                 |shown[j]| == 1 && Some(shown[j][0].url) == trailers[|trailers| - 1 - j].url
  {
    var rows: seq<Row> := KeyboardOf(trailers, kind, item, words).value;
    ReversedIndex(rows);
    if trailers != [] {
      KeyboardRows(trailers, kind, item, words);
    }
  }
}
