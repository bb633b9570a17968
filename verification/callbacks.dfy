/**
 * The callback data the bot's inline buttons carry, how the dispatcher routes
 * it to a handler, and how the handlers read their argument back out of it
 * with `data.split('_')[1]`.
 */
module Callbacks {
  import opened Wrappers
  import opened PyStr

  // Fixed callback data of the main menu and the subscription prompt (bot.py:51, 79-81).
  const BrowseSurahsData: string := "browse_surahs"
  const SearchVerseData: string := "search_verse"
  const ShowFavoritesData: string := "show_favorites"
  const CheckSubscriptionData: string := "check_subscription"

  /** `f"surah_{id}"`, one button per chapter in the chapter list: the tag and the id as two fields. */
  function SurahData(surahId: int): (r: string)
    ensures Split(r, '_') == ["surah", IntToString(surahId)]
  {
    IntToStringNoUnderscore(surahId);
    assert "surah_"[..5] == "surah";
    TagField("surah_", IntToString(surahId));
    "surah_" + IntToString(surahId)
  }

  /** `f"fav_{verse_id}"`, the bookmark button under a search result. */
  function FavData(verseId: int): (r: string)
    ensures Split(r, '_') == ["fav", IntToString(verseId)]
  {
    IntToStringNoUnderscore(verseId);
    assert "fav_"[..3] == "fav";
    TagField("fav_", IntToString(verseId));
    "fav_" + IntToString(verseId)
  }

  /** `f"tafsir_{verse_id}"`, the commentary button under a search result. */
  function TafsirData(verseId: int): (r: string)
    ensures Split(r, '_') == ["tafsir", IntToString(verseId)]
  {
    IntToStringNoUnderscore(verseId);
    assert "tafsir_"[..6] == "tafsir";
    TagField("tafsir_", IntToString(verseId));
    "tafsir_" + IntToString(verseId)
  }

  /** `f"remove_{verse_id}"`, one button per bookmarked verse. */
  function RemoveData(verseId: int): (r: string)
    ensures Split(r, '_') == ["remove", IntToString(verseId)]
  {
    IntToStringNoUnderscore(verseId);
    assert "remove_"[..6] == "remove";
    TagField("remove_", IntToString(verseId));
    "remove_" + IntToString(verseId)
  }

  /**
   * `f"fav_surah_{surah_id}_{last_verse}"`, the bookmark button under a group of
   * verses; `surah_id` is the text read back out of the `surah_` data. When
   * that text has no underscore the data has four fields.
   */
  function FavSurahData(surahId: string, lastVerse: int): (r: string)
    ensures '_' !in surahId ==> Split(r, '_') == ["fav", "surah", surahId, IntToString(lastVerse)]
  {
    var v := IntToString(lastVerse);
    var r := "fav_surah_" + surahId + "_" + v;
    if '_' in surahId then r
    else
      IntToStringNoUnderscore(lastVerse);
      assert r == "fav" + ['_'] + ("surah" + ['_'] + (surahId + ['_'] + v));
      SplitAfter("fav", '_', "surah" + ['_'] + (surahId + ['_'] + v));
      SplitAfter("surah", '_', surahId + ['_'] + v);
      SplitAfter(surahId, '_', v);
      SplitNoSep(v, '_');
      r
  }

  /** An inline button: it either sends callback data back to the bot or opens a URL. */
  datatype Button = Callback(caption: string, data: string) | Link(caption: string, url: string)

  /** A message the bot sends or edits, with its inline keyboard as rows of buttons. */
  datatype Message = Message(text: string, keyboard: seq<seq<Button>>)

  predicate StartsWith(s: string, prefix: string)
  {
    |prefix| <= |s| && s[..|prefix|] == prefix
  }

  /**
   * `data.split('_')[1]`: the text between the first underscore and the next
   * one (or the end). `None` is the `IndexError` of data without an underscore.
   */
  function Arg(data: string): (r: Option<string>)
    ensures r.Some? <==> '_' in data
    ensures r.Some? ==> '_' !in r.value
    ensures r.Some? ==>
      exists i {:trigger data[i]} ::
        (&& 0 <= i < |data| && data[i] == '_' && '_' !in data[..i]
         && StartsWith(data[i + 1..], r.value)
         && (i + 1 + |r.value| == |data| || data[i + 1 + |r.value|] == '_'))
  {
    var parts := Split(data, '_');
    JoinSplit(data, '_');
    if |parts| >= 2 then
      SplitSecond(data, '_');
      var i := |parts[0]|;
      assert data[i + 1..][..|parts[1]|] == data[i + 1..i + 1 + |parts[1]|];
      assert && 0 <= i < |data| && data[i] == '_' && '_' !in data[..i]
             && StartsWith(data[i + 1..], parts[1])
             && (i + 1 + |parts[1]| == |data| || data[i + 1 + |parts[1]|] == '_');
      Some(parts[1])
    else None
  }

  /**
   * `int(data.split('_')[1])`, as `remove_favorite` compares it with each
   * stored verse id: it fails without an underscore or when that field is not
   * an integer.
   */
  function RemoveTarget(data: string): (r: Option<int>)
    ensures '_' !in data ==> r.None?
    ensures r.Some? <==> Arg(data).Some? && ParseInt(Arg(data).value).Some?
    ensures r.Some? ==> ParseInt(Arg(data).value) == r
  {
    match Arg(data)
    case None => None
    case Some(a) => ParseInt(a)
  }

  /** The handlers that callback data can reach. */
  datatype Handler =
    | BrowseSurahs | SearchVerse | ShowFavorites | ShowSurah
    | AddFavorite | RemoveFavorite | CheckSubscription | Unhandled

  /**
   * The dispatcher: the first registered pattern that matches at the start of
   * the data wins; `^x$` patterns must match the whole data.
   */
  function Route(data: string): (h: Handler)
    ensures h == ShowSurah ==> StartsWith(data, "surah_")
    ensures h == AddFavorite ==> StartsWith(data, "fav_")
    ensures h == RemoveFavorite ==> StartsWith(data, "remove_")
    ensures h == ShowSurah || h == AddFavorite || h == RemoveFavorite ==> Arg(data).Some?
    ensures StartsWith(data, "surah_") ==> h == ShowSurah
    ensures StartsWith(data, "fav_") ==> h == AddFavorite
    ensures StartsWith(data, "remove_") ==> h == RemoveFavorite
  {
    PrefixChars(data);
    if data == BrowseSurahsData then BrowseSurahs
    else if data == SearchVerseData then SearchVerse
    else if data == ShowFavoritesData then ShowFavorites
    else if StartsWith(data, "surah_") then ShowSurah
    else if StartsWith(data, "fav_") then AddFavorite
    else if StartsWith(data, "remove_") then RemoveFavorite
    else if data == CheckSubscriptionData then CheckSubscription
    else Unhandled
  }

  /** The characters that tell the registered patterns apart. */
  lemma PrefixChars(data: string)
    ensures data == BrowseSurahsData ==> data[0] == 'b'
    ensures data == SearchVerseData ==> data[0] == 's' && data[1] == 'e'
    ensures data == ShowFavoritesData ==> data[0] == 's' && data[1] == 'h'
    ensures StartsWith(data, "surah_") ==> data[0] == 's' && data[1] == 'u' && data[5] == '_'
    ensures StartsWith(data, "fav_") ==> data[0] == 'f' && data[3] == '_'
    ensures StartsWith(data, "remove_") ==> data[0] == 'r' && data[6] == '_'
  {
    if StartsWith(data, "surah_") {
      assert data[..6][1] == 'u';
    }
  }

  /** Data that differs from a prefix at some position neither starts with it nor equals it. */
  lemma Mismatch(data: string, prefix: string, i: nat)
    requires i < |data| && i < |prefix| && data[i] != prefix[i]
    ensures !StartsWith(data, prefix) && data != prefix
  {
  }

  /**
   * A prefix `tag_` (no other underscore) followed by a field without
   * underscores splits into exactly the tag and the field.
   */
  lemma TagField(prefix: string, field: string)
    requires |prefix| > 0 && prefix[|prefix| - 1] == '_' && '_' !in prefix[..|prefix| - 1]
    requires '_' !in field
    ensures Split(prefix + field, '_') == [prefix[..|prefix| - 1], field]
    ensures StartsWith(prefix + field, prefix)
    ensures forall i :: 0 <= i < |prefix| ==> (prefix + field)[i] == prefix[i]
  {
    var tag := prefix[..|prefix| - 1];
    assert prefix + field == tag + ['_'] + field;
    SplitAfter(tag, '_', field);
    SplitNoSep(field, '_');
    assert (prefix + field)[..|prefix|] == prefix;
  }

  /** The main menu's buttons and the subscription prompt's check button reach their own handlers. */
  lemma FixedDataRoutes()
    ensures Route(BrowseSurahsData) == BrowseSurahs
    ensures Route(SearchVerseData) == SearchVerse
    ensures Route(ShowFavoritesData) == ShowFavorites
    ensures Route(CheckSubscriptionData) == CheckSubscription
  {
    Mismatch(SearchVerseData, BrowseSurahsData, 0);
    Mismatch(ShowFavoritesData, BrowseSurahsData, 0);
    Mismatch(ShowFavoritesData, SearchVerseData, 1);
    var d := CheckSubscriptionData;
    Mismatch(d, BrowseSurahsData, 0);
    Mismatch(d, SearchVerseData, 0);
    Mismatch(d, ShowFavoritesData, 0);
    Mismatch(d, "surah_", 0);
    Mismatch(d, "fav_", 0);
    Mismatch(d, "remove_", 0);
  }

  /** A remove button routes to `remove_favorite`, which reads back exactly the verse id it was made from. */
  lemma RemoveRoundTrip(verseId: int)
    ensures Route(RemoveData(verseId)) == RemoveFavorite
    ensures Arg(RemoveData(verseId)) == Some(IntToString(verseId))
    ensures RemoveTarget(RemoveData(verseId)) == Some(verseId)
  {
    var d := RemoveData(verseId);
    IntToStringNoUnderscore(verseId);
    TagField("remove_", IntToString(verseId));
    Mismatch(d, BrowseSurahsData, 0);
    Mismatch(d, SearchVerseData, 0);
    Mismatch(d, ShowFavoritesData, 0);
    Mismatch(d, "surah_", 0);
    Mismatch(d, "fav_", 0);
    IntRoundTrip(verseId);
  }

  /** A chapter button routes to `show_surah`, whose argument is the chapter id as text. */
  lemma SurahRoundTrip(surahId: int)
    ensures Route(SurahData(surahId)) == ShowSurah
    ensures Arg(SurahData(surahId)) == Some(IntToString(surahId))
    ensures ParseInt(Arg(SurahData(surahId)).value) == Some(surahId)
  {
    var d := SurahData(surahId);
    IntToStringNoUnderscore(surahId);
    TagField("surah_", IntToString(surahId));
    Mismatch(d, BrowseSurahsData, 0);
    Mismatch(d, SearchVerseData, 1);
    Mismatch(d, ShowFavoritesData, 1);
    IntRoundTrip(surahId);
  }

  /** A search result's bookmark button routes to `add_favorite` with its verse id. */
  lemma FavRoundTrip(verseId: int)
    ensures Route(FavData(verseId)) == AddFavorite
    ensures Arg(FavData(verseId)) == Some(IntToString(verseId))
  {
    var d := FavData(verseId);
    IntToStringNoUnderscore(verseId);
    TagField("fav_", IntToString(verseId));
    Mismatch(d, BrowseSurahsData, 0);
    Mismatch(d, SearchVerseData, 0);
    Mismatch(d, ShowFavoritesData, 0);
    Mismatch(d, "surah_", 0);
  }

  /** No handler is registered for the commentary button. */
  lemma TafsirUnhandled(verseId: int)
    ensures Route(TafsirData(verseId)) == Unhandled
  {
    var d := TafsirData(verseId);
    IntToStringNoUnderscore(verseId);
    TagField("tafsir_", IntToString(verseId));
    Mismatch(d, BrowseSurahsData, 0);
    Mismatch(d, SearchVerseData, 0);
    Mismatch(d, ShowFavoritesData, 0);
    Mismatch(d, "surah_", 0);
    Mismatch(d, "fav_", 0);
    Mismatch(d, "remove_", 0);
    Mismatch(d, CheckSubscriptionData, 0);
  }

  /**
   * As written: a verse group's bookmark button reaches `add_favorite`, whose
   * `split('_')[1]` yields the word "surah" rather than a verse id, and "surah"
   * is not an int.
   */
  lemma FavSurahArgIsSurah(surahId: string, lastVerse: int)
    requires '_' !in surahId
    ensures Route(FavSurahData(surahId, lastVerse)) == AddFavorite
    ensures Arg(FavSurahData(surahId, lastVerse)) == Some("surah")
    ensures ParseInt("surah").None?
  {
    var d := FavSurahData(surahId, lastVerse);
    Mismatch(d, BrowseSurahsData, 0);
    Mismatch(d, SearchVerseData, 0);
    Mismatch(d, ShowFavoritesData, 0);
    Mismatch(d, "surah_", 0);
    assert StartsWith(d, "fav_") by {
      assert d[..4] == "fav_";
    }
    assert !IsDigit("surah"[0]);
  }

  /** What a bookmark button asks `add_favorite` to fetch: a verse by id, or by chapter and number. */
  datatype VerseRef = ById(verseId: int) | ByKey(surahId: int, verseNumber: int)

  /**
   * Corrected reading of the bookmark data: `fav_{verse_id}` names a verse by
   * id and `fav_surah_{surah_id}_{last_verse}` names one by chapter and number.
   */
  function FavoriteTarget(data: string): (r: Option<VerseRef>)
    ensures r.Some? ==> StartsWith(data, "fav_")
  {
    var parts := Split(data, '_');
    if |parts| == 2 && parts[0] == "fav" then
      match ParseInt(parts[1])
      case Some(v) => (JoinSplit(data, '_'); Some(ById(v)))
      case None => None
    else if |parts| == 4 && parts[0] == "fav" && parts[1] == "surah" then
      match (ParseInt(parts[2]), ParseInt(parts[3]))
      case (Some(s), Some(v)) => (JoinSplit(data, '_'); Some(ByKey(s, v)))
      case _ => None
    else None
  }

  /** Corrected: the search-result button still names its verse by id. */
  lemma FavTargetById(verseId: int)
    ensures FavoriteTarget(FavData(verseId)) == Some(ById(verseId))
  {
    IntToStringNoUnderscore(verseId);
    TagField("fav_", IntToString(verseId));
    IntRoundTrip(verseId);
  }

  /** Corrected: the verse-group button names the last verse of the group in its chapter. */
  lemma FavTargetByKey(surahId: int, lastVerse: int)
    ensures FavoriteTarget(FavSurahData(IntToString(surahId), lastVerse)) == Some(ByKey(surahId, lastVerse))
  {
    IntToStringNoUnderscore(surahId);
    IntRoundTrip(surahId);
    IntRoundTrip(lastVerse);
  }
}
