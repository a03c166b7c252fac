/**
 * Callback data of the inline buttons. A search-result button carries
 * "<media_type>-<id>" and its handler splits it on '-'; a language button
 * carries "userlang---<language>" and its handler splits it on '---'. Each
 * handler is registered under a regular expression that filters the data it
 * receives.
 */
module Callbacks {
  import opened Outcomes
  import opened Text
  import opened Catalog

  const MediaSep := "-"
  const LangSep := "---"
  const LangTag := "userlang"

  /** The title a search-result button refers to. */
  datatype MediaRef = MediaRef(kind: string, id: int)

  /**
   * f"{item['media_type']}-{item['id']}" for an integer id: the media type, a
   * dash, then the id's text, which is a plain run of digits exactly when the
   * id is not negative.
   */
  function EncodeMedia(kind: string, id: int): (data: string)
    ensures |kind| < |data| && data[..|kind|] == kind && data[|kind|] == '-'
    ensures AllDigits(data[|kind| + 1..]) <==> id >= 0
  {
    var data := kind + MediaSep + IntText(id);
    assert data[..|kind|] == kind && data[|kind| + 1..] == IntText(id);
    data
  }

  /**
   * media_type, ids = data.split('-'); ids = int(ids). The only exception is
   * ValueError; on success the data is the media type (which holds no '-'), a
   * dash, and a text int() reads as the id.
   */
  function DecodeMedia(data: string): (r: Outcome<MediaRef>)
    ensures r.Raise? ==> r.exc == ValueError
    ensures r.Ok? ==> && '-' !in r.value.kind
                      && |r.value.kind| < |data|
                      && data == r.value.kind + MediaSep + data[|r.value.kind| + 1..]
                      && ParseInt(data[|r.value.kind| + 1..]) == Ok(r.value.id)
  {
    var parts := Split(data, MediaSep);
    if |parts| != 2 then Raise(ValueError)
    else
      SplitInTwo(data, MediaSep);
      ContainsChar(parts[0], '-');
      assert data[|parts[0]| + 1..] == parts[1];
      match ParseInt(parts[1])
      case Raise(e) => Raise(e)
      case Ok(id) => Ok(MediaRef(parts[0], id))
  }

  /** f"userlang---{language}": split on "---", it is the tag followed by the language's pieces. */
  function EncodeLang(language: string): (data: string)
    ensures Split(data, LangSep) == [LangTag] + Split(language, LangSep)
  {
    SplitAfterPiece(LangTag, LangSep, language);
    LangTag + LangSep + language
  }

  /**
   * _, lang = data.split('---'). The only exception is ValueError; on success
   * the data holds "---" exactly once and the language is what follows it.
   */
  function DecodeLang(data: string): (r: Outcome<string>)
    ensures r.Raise? ==> r.exc == ValueError
    ensures r.Ok? ==> && |r.value| + |LangSep| <= |data|
                      && var head := data[..|data| - |r.value| - |LangSep|];
                         && data == head + LangSep + r.value
                         && !Contains(head, LangSep)
                         && !Contains(r.value, LangSep)
  {
    var parts := Split(data, LangSep);
    if |parts| != 2 then Raise(ValueError)
    else
      SplitInTwo(data, LangSep);
      assert data[..|data| - |parts[1]| - |LangSep|] == parts[0];
      Ok(parts[1])
  }

  /** `data` is `prefix`, a '-', and one or more decimal digits. */
  predicate DashDigitsAfter(data: string, prefix: string) {
    && |prefix| < |data|
    && data[..|prefix|] == prefix
    && data[|prefix|] == '-'
    && AllDigits(data[|prefix| + 1..])
  }

  /**
   * The filter of the search-result handler, ^(movie|tv)?\-\d+$: the data
   * passes exactly when split('-') gives two pieces, "", movie or tv and then
   * a run of digits.
   */
  predicate MediaPattern(data: string): (ok: bool)
    ensures ok <==> var parts := Split(data, MediaSep);
                    |parts| == 2 && parts[0] in {"", MovieKind, TvKind} && AllDigits(parts[1])
  {
    DashDigitsSplit(data, "");
    DashDigitsSplit(data, MovieKind);
    DashDigitsSplit(data, TvKind);
    DashDigitsAfter(data, "") || DashDigitsAfter(data, MovieKind) || DashDigitsAfter(data, TvKind)
  }

  /** \w restricted to ASCII, or '-'. */
  predicate WordOrDash(c: char) {
    ('a' <= c <= 'z') || ('A' <= c <= 'Z') || ('0' <= c <= '9') || c == '_' || c == '-'
  }

  /**
   * The filter of the language handler, ^userlang\-\-\-[\w-]+$: data that
   * passes splits on "---" into the tag and at least one more piece.
   */
  predicate LangPattern(data: string): (ok: bool)
    ensures ok ==> var parts := Split(data, LangSep); |parts| >= 2 && parts[0] == LangTag
  {
    var head := LangTag + LangSep;
    if && |head| < |data|
       && data[..|head|] == head
       && forall i :: |head| <= i < |data| ==> WordOrDash(data[i])
    then
      assert data == LangTag + LangSep + data[|head|..];
      SplitAfterPiece(LangTag, LangSep, data[|head|..]);
      true
    else
      false
  }

  // ---------------------------------------------------------------- helpers

  lemma ContainsChar(s: string, c: char)
    ensures Contains(s, [c]) <==> c in s
  {
    if c in s {
      var i :| 0 <= i < |s| && s[i] == c;
      assert OccursAt(s, [c], i);
    }
    if Contains(s, [c]) {
      var i :| 0 <= i <= |s| && OccursAt(s, [c], i);
      assert s[i] == s[i..i + 1][0];
    }
  }

  lemma DigitsHaveNoDash(s: string)
    requires AllDigits(s)
    ensures '-' !in s
  {
    assert forall i :: 0 <= i < |s| ==> s[i] != '-';
  }

  /** Data with a prefix free of '-' passes DashDigitsAfter exactly when it splits into that prefix and digits. */
  lemma DashDigitsSplit(data: string, prefix: string)
    requires '-' !in prefix
    ensures DashDigitsAfter(data, prefix) <==>
              var parts := Split(data, MediaSep); |parts| == 2 && parts[0] == prefix && AllDigits(parts[1])
  {
    if DashDigitsAfter(data, prefix) {
      var digits := data[|prefix| + 1..];
      assert data == prefix + MediaSep + digits;
      SplitAfterPiece(prefix, MediaSep, digits);
      DigitsHaveNoDash(digits);
      ContainsChar(digits, '-');
      SplitWithoutSeparator(digits, MediaSep);
    }
    var parts := Split(data, MediaSep);
    if |parts| == 2 && parts[0] == prefix && AllDigits(parts[1]) {
      SplitInTwo(data, MediaSep);
      assert data[..|prefix|] == prefix && data[|prefix| + 1..] == parts[1];
    }
  }

  /** int() of a run of digits succeeds with its value. */
  lemma ParseDigits(s: string)
    requires AllDigits(s)
    ensures ParseInt(s) == Ok(DigitsValue(s))
  {
    assert IsDigit(s[0]);
  }

  // ---------------------------------------------------------------- properties

  /**
   * A search-result button decodes back to the title it was built for exactly
   * when the media type holds no '-' and the id is not negative; otherwise
   * split('-') yields more than two parts and the unpacking raises ValueError.
   */
  lemma MediaRoundTrip(kind: string, id: int)
    ensures DecodeMedia(EncodeMedia(kind, id)) == Ok(MediaRef(kind, id)) <==> '-' !in kind && id >= 0
    ensures !('-' !in kind && id >= 0) ==> DecodeMedia(EncodeMedia(kind, id)) == Raise(ValueError)
  {
    if '-' in kind {
      DashInKindRejected(kind, id);
    } else if id < 0 {
      NegativeIdRejected(kind, id);
    } else {
      PlainMediaDecodes(kind, id);
    }
  }

  lemma DashInKindRejected(kind: string, id: int)
    requires '-' in kind
    ensures DecodeMedia(EncodeMedia(kind, id)) == Raise(ValueError)
  {
    ContainsChar(kind, '-');
    SplitAfterSeparatedPiece(kind, MediaSep, IntText(id));
  }

  lemma NegativeIdRejected(kind: string, id: int)
    requires '-' !in kind && id < 0
    ensures DecodeMedia(EncodeMedia(kind, id)) == Raise(ValueError)
  {
    var digits := NatText(-id);
    assert IntText(id) == "" + MediaSep + digits;
    calc {
      Split(EncodeMedia(kind, id), MediaSep);
      { SplitAfterPiece(kind, MediaSep, IntText(id)); }
      [kind] + Split("" + MediaSep + digits, MediaSep);
      { SplitAfterPiece("", MediaSep, digits); }
      [kind] + ([""] + Split(digits, MediaSep));
    }
  }

  lemma PlainMediaDecodes(kind: string, id: int)
    requires '-' !in kind && id >= 0
    ensures DecodeMedia(EncodeMedia(kind, id)) == Ok(MediaRef(kind, id))
  {
    var digits := NatText(id);
    DigitsHaveNoDash(digits);
    ContainsChar(digits, '-');
    calc {
      Split(EncodeMedia(kind, id), MediaSep);
      { SplitAfterPiece(kind, MediaSep, digits); }
      [kind] + Split(digits, MediaSep);
      { SplitWithoutSeparator(digits, MediaSep); }
      [kind, digits];
    }
    ParseIntOfIntText(id);
  }

  /**
   * Data that passes the search-result filter always decodes, to the kind
   * before the dash ("" when none is given) and the non-negative number after it.
   */
  lemma MediaPatternDecodes(data: string)
    requires MediaPattern(data)
    ensures DecodeMedia(data).Ok?
    ensures DecodeMedia(data).value.kind in {"", MovieKind, TvKind}
    ensures DecodeMedia(data).value.id >= 0
  {
    ParseDigits(Split(data, MediaSep)[1]);
  }

  /** The buttons the bot builds for its two kinds pass the filter exactly when the id is not negative. */
  lemma EncodedMediaPassesFilter(kind: string, id: int)
    requires kind == MovieKind || kind == TvKind
    ensures MediaPattern(EncodeMedia(kind, id)) <==> id >= 0
  {
    var data := EncodeMedia(kind, id);
    if id >= 0 {
      assert data[..|kind|] == kind;
      assert data[|kind| + 1..] == NatText(id);
      assert DashDigitsAfter(data, kind);
    } else {
      assert data[|kind| + 1] == '-';
      assert data[..|kind|] == kind;
      assert data[0] == kind[0];
    }
  }

  /**
   * A language button decodes back to its language exactly when the language
   * does not hold "---".
   */
  lemma LangRoundTrip(language: string)
    ensures DecodeLang(EncodeLang(language)) == Ok(language) <==> !Contains(language, LangSep)
    ensures Contains(language, LangSep) ==> DecodeLang(EncodeLang(language)) == Raise(ValueError)
  {
    SplitAfterPiece(LangTag, LangSep, language);
    if Contains(language, LangSep) {
      SplitWithSeparator(language, LangSep);
    } else {
      SplitWithoutSeparator(language, LangSep);
    }
  }

  /** A string with no two '-' in a row does not hold "---". */
  lemma NoDoubleDash(s: string)
    requires forall i :: 0 <= i < |s| - 1 ==> s[i] != '-' || s[i + 1] != '-'
    ensures !Contains(s, LangSep)
  {
    forall i | 0 <= i <= |s| ensures !OccursAt(s, LangSep, i) {
      if i + |LangSep| <= |s| {
        assert s[i..i + |LangSep|][0] == s[i] && s[i..i + |LangSep|][1] == s[i + 1];
      }
    }
  }

  /** Both language buttons the bot sends decode back to their language and pass the filter. */
  lemma BotLanguagesRoundTrip()
    ensures DecodeLang(EncodeLang(EnglishLanguage)) == Ok(EnglishLanguage)
    ensures DecodeLang(EncodeLang(PersianLanguage)) == Ok(PersianLanguage)
    ensures LangPattern(EncodeLang(EnglishLanguage)) && LangPattern(EncodeLang(PersianLanguage))
  {
    NoDoubleDash(EnglishLanguage);
    NoDoubleDash(PersianLanguage);
    LangRoundTrip(EnglishLanguage);
    LangRoundTrip(PersianLanguage);
  }

  /**
   * The language filter lets through data that the handler cannot unpack: a
   * language holding "---" passes [\w-]+ but splits into three parts.
   */
  lemma LangFilterAdmitsUndecodable(language: string)
    requires language != [] && forall i :: 0 <= i < |language| ==> WordOrDash(language[i])
    requires Contains(language, LangSep)
    ensures LangPattern(EncodeLang(language))
    ensures DecodeLang(EncodeLang(language)) == Raise(ValueError)
  {
    var data := EncodeLang(language);
    assert forall i :: |LangTag + LangSep| <= i < |data| ==> data[i] == language[i - |LangTag + LangSep|];
    LangRoundTrip(language);
  }
}
