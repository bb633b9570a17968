/**
 * The callback handlers that tie the pieces together: they read their
 * argument from the callback data, load the favourites file, change it and
 * save it back, and build the messages and keyboards the user sees. The
 * content API's answers are inputs.
 */
module Handlers {
  import opened Wrappers
  import opened PyStr
  import opened Callbacks
  import opened Favorites
  import opened Grouping

  const AddedText: string := "💖 تمت إضافة الآية إلى المفضلة"
  const RemovedText: string := "🗑 تم حذف الآية من المفضلة"
  const NoFavoritesText: string := "⭐ لم تقم بحفظ أي آيات بعد"
  const FavoritesHeader: string := "⭐ آياتك المفضلة:\n\n"

  /** `str(query.from_user.id)`: the key of a user in the favourites store. */
  function UserKey(userId: int): (k: string)
    ensures ParseInt(k) == Some(userId)
  {
    IntRoundTrip(userId);
    IntToString(userId)
  }

  /** Different users never share a list. */
  lemma UserKeysDistinct(a: int, b: int)
    requires a != b
    ensures UserKey(a) != UserKey(b)
  {
    IntToStringInjective(a, b);
  }

  /** A verse as the content API returns it from `verses/by_id`. */
  datatype ApiVerse = ApiVerse(id: int, chapterId: int, verseNumber: int, textUthmani: string)

  /** The bookmark `add_favorite` stores for a fetched verse. */
  function EntryOf(v: ApiVerse): (e: Entry)
    ensures e.verseId == v.id && e.surahId == v.chapterId
    ensures e.verseNumber == v.verseNumber && e.text == v.textUthmani
  {
    Entry(v.id, v.chapterId, v.verseNumber, v.textUthmani)
  }

  /**
   * `add_favorite` as written: it fetches the verse whose id is the text
   * `data.split('_')[1]`. `fetch` is the content API: `None` when it has no
   * such verse, which makes the handler fail before anything is saved.
   * `reply` is `None` when the handler ends without a reply.
   */
  method AddFavorite(file: FileState, userId: int, data: string, fetch: string -> Option<ApiVerse>)
    returns (file': FileState, reply: Option<string>)
    ensures reply.Some? <==> StartsWith(data, "fav_") && Arg(data).Some? && fetch(Arg(data).value).Some?
    ensures reply.Some? ==> reply.value == AddedText
    ensures reply.Some? ==>
      var e := EntryOf(fetch(Arg(data).value).value);
      file' == Save(WithAdded(Load(file), UserKey(userId), e))
      && ListOf(Load(file'), UserKey(userId)) == ListOf(Load(file), UserKey(userId)) + [e]
    ensures reply.None? ==> file' == file
  {
    if !StartsWith(data, "fav_") {
      return file, None;
    }
    assert data[3] == '_';
    var verse := fetch(Arg(data).value);
    if verse.None? {
      return file, None;
    }
    var favorites := new FavoritesDict(file);
    favorites.Add(UserKey(userId), EntryOf(verse.value));
    file' := Save(favorites.entries);
    reply := Some(AddedText);
  }

  /**
   * As written, the bookmark button of every verse group makes `add_favorite`
   * ask the content API for the verse with id "surah", whatever the chapter
   * and the group's last verse.
   */
  lemma GroupBookmarkFetchesSurah(surahId: int, g: Group)
    ensures var d := GroupMessage(IntToString(surahId), g).keyboard[0][1].data;
      StartsWith(d, "fav_") && Arg(d) == Some("surah")
  {
    IntToStringNoUnderscore(surahId);
    FavSurahArgIsSurah(IntToString(surahId), g.lastVerse);
  }

  /**
   * Corrected `add_favorite`: the bookmark data is read as `FavoriteTarget`
   * reads it, so a verse group's button names the group's last verse.
   */
  method AddFavoriteCorrected(file: FileState, userId: int, data: string, fetch: VerseRef -> Option<ApiVerse>)
    returns (file': FileState, reply: Option<string>)
    ensures reply.Some? <==>
      StartsWith(data, "fav_") && FavoriteTarget(data).Some? && fetch(FavoriteTarget(data).value).Some?
    ensures reply.Some? ==> reply.value == AddedText
    ensures reply.Some? ==>
      var e := EntryOf(fetch(FavoriteTarget(data).value).value);
      file' == Save(WithAdded(Load(file), UserKey(userId), e))
      && ListOf(Load(file'), UserKey(userId)) == ListOf(Load(file), UserKey(userId)) + [e]
    ensures reply.None? ==> file' == file
  {
    if !StartsWith(data, "fav_") {
      return file, None;
    }
    var target := FavoriteTarget(data);
    if target.None? {
      return file, None;
    }
    var verse := fetch(target.value);
    if verse.None? {
      return file, None;
    }
    var favorites := new FavoritesDict(file);
    favorites.Add(UserKey(userId), EntryOf(verse.value));
    file' := Save(favorites.entries);
    reply := Some(AddedText);
  }

  /**
   * `remove_favorite`. It fails (`reply == None`, nothing saved) when the data
   * has no underscore, or when `int()` is reached on an argument that is not
   * an integer, which happens only when the user has at least one bookmark.
   * A user without a list gets the reply but nothing is saved.
   */
  method RemoveFavorite(file: FileState, userId: int, data: string) returns (file': FileState, reply: Option<string>)
    ensures reply.None? <==>
      Arg(data).None?
      || (UserKey(userId) in Load(file) && Load(file)[UserKey(userId)] != [] && RemoveTarget(data).None?)
    ensures reply.Some? ==> reply.value == RemovedText
    ensures reply.None? || UserKey(userId) !in Load(file) ==> file' == file
    ensures reply.Some? && UserKey(userId) in Load(file) && Load(file)[UserKey(userId)] == [] ==>
      file' == Save(Load(file))
    ensures reply.Some? && UserKey(userId) in Load(file) && RemoveTarget(data).Some? ==>
      file' == Save(WithRemoved(Load(file), UserKey(userId), RemoveTarget(data).value))
  {
    var arg := Arg(data);
    if arg.None? {
      return file, None;
    }
    var user := UserKey(userId);
    var favorites := new FavoritesDict(file);
    file' := file;
    if user in favorites.entries {
      // `int(verse_id)` runs once per bookmark, so an empty list never reaches it
      if favorites.entries[user] != [] {
        var target := ParseInt(arg.value);
        if target.None? {
          return file, None;
        }
        favorites.Remove(user, target.value);
      } else if RemoveTarget(data).Some? {
        assert Without([], RemoveTarget(data).value) == [];
      }
      file' := Save(favorites.entries);
    }
    reply := Some(RemovedText);
  }

  /**
   * One line of the favourites list: `f"{surah_id}:{verse_number} - {text}\n\n"`,
   * the verse's reference, then its text, then a blank line.
   */
  function FavLine(e: Entry): (line: string)
    ensures var ref := IntToString(e.surahId) + ":" + IntToString(e.verseNumber) + " - ";
      && StartsWith(line, ref)
      && line[|ref|..] == e.text + "\n\n"
  {
    var ref := IntToString(e.surahId) + ":" + IntToString(e.verseNumber) + " - ";
    assert (ref + (e.text + "\n\n"))[..|ref|] == ref;
    ref + (e.text + "\n\n")
  }

  /** The lines of a list of bookmarks, one per bookmark, in order. */
  function FavLines(favs: seq<Entry>): (lines: seq<string>)
    ensures |lines| == |favs|
    ensures forall k :: 0 <= k < |favs| ==> lines[k] == FavLine(favs[k])
  {
    seq(|favs|, k requires 0 <= k < |favs| => FavLine(favs[k]))
  }

  /**
   * `show_favorites` for the stored file: the "none yet" notice for a user
   * without bookmarks, otherwise the header and one line per bookmark with
   * the keyboard of `FavoritesKeyboard`.
   */
  method ShowFavorites(file: FileState, userId: int) returns (m: Message)
    ensures ListOf(Load(file), UserKey(userId)) == [] ==> m == Message(NoFavoritesText, [])
    ensures ListOf(Load(file), UserKey(userId)) != [] ==>
      var favs := ListOf(Load(file), UserKey(userId));
      && m.text == FavoritesHeader + Concat(FavLines(favs))
      && |m.keyboard| == |favs|
      && forall k :: 0 <= k < |favs| ==> m.keyboard[k] == [RemoveButton(favs[k]), ListenButton(favs[k])]
  {
    var favs := ListOf(Load(file), UserKey(userId));
    if favs == [] {
      return Message(NoFavoritesText, []);
    }
    var text := FavoritesText(favs);
    var keyboard := FavoritesKeyboard(favs);
    m := Message(text, keyboard);
  }

  /** The loop of `show_favorites` that builds its text: the header, then one line per bookmark, in order. */
  method FavoritesText(favs: seq<Entry>) returns (text: string)
    ensures text == FavoritesHeader + Concat(FavLines(favs))
  {
    text := FavoritesHeader;
    for i := 0 to |favs|
      invariant text == FavoritesHeader + Concat(FavLines(favs)[0..i])
    {
      HeadedConcatExtend(FavoritesHeader, FavLines(favs), i);
      text := text + FavLine(favs[i]);
    }
    assert FavLines(favs)[0..|favs|] == FavLines(favs);
  }

  /**
   * The remove button of a bookmark, captioned `f"❌ حذف {surah_id}:{verse_number}"`:
   * it routes to `remove_favorite`, which reads back the bookmark's verse id.
   */
  function RemoveButton(e: Entry): (b: Button)
    ensures b.Callback? && Route(b.data) == Handler.RemoveFavorite
    ensures RemoveTarget(b.data) == Some(e.verseId)
  {
    RemoveRoundTrip(e.verseId);
    Callback("❌ حذف " + IntToString(e.surahId) + ":" + IntToString(e.verseNumber), RemoveData(e.verseId))
  }

  const QuranSite: string := "https://quran.com/"

  /**
   * The listen button of a bookmark: a link whose path on the Quran site is
   * the chapter and the verse number.
   */
  function ListenButton(e: Entry): (b: Button)
    ensures b.Link? && StartsWith(b.url, QuranSite)
    ensures Split(b.url[|QuranSite|..], '/') == [IntToString(e.surahId), IntToString(e.verseNumber)]
  {
    var s, v := IntToString(e.surahId), IntToString(e.verseNumber);
    IntToStringWithout(e.surahId, '/');
    IntToStringWithout(e.verseNumber, '/');
    SplitAfter(s, '/', v);
    SplitNoSep(v, '/');
    assert (QuranSite + (s + ['/'] + v))[..|QuranSite|] == QuranSite;
    assert (QuranSite + (s + ['/'] + v))[|QuranSite|..] == s + ['/'] + v;
    Link("▶️ استمع", QuranSite + (s + ['/'] + v))
  }

  /** `favorites_keyboard`: one row per bookmark, in order, with its remove and listen buttons. */
  method FavoritesKeyboard(favs: seq<Entry>) returns (rows: seq<seq<Button>>)
    ensures |rows| == |favs|
    ensures forall k :: 0 <= k < |favs| ==> rows[k] == [RemoveButton(favs[k]), ListenButton(favs[k])]
  {
    rows := [];
    for i := 0 to |favs|
      invariant |rows| == i
      invariant forall k :: 0 <= k < i ==> rows[k] == [RemoveButton(favs[k]), ListenButton(favs[k])]
    {
      rows := rows + [[RemoveButton(favs[i]), ListenButton(favs[i])]];
    }
  }

  /** Removing at least one bookmark with a verse id makes the list strictly shorter. */
  lemma {:induction false} WithoutShrinks(favs: seq<Entry>, k: nat, v: int)
    requires k < |favs| && favs[k].verseId == v
    ensures |Without(favs, v)| < |favs|
  {
    var init := favs[..|favs| - 1];
    if k < |favs| - 1 {
      WithoutShrinks(init, k, v);
    }
  }

  /**
   * Pressing the remove button of a listed bookmark reaches `remove_favorite`
   * with that verse id, and the saved list then has no entry for that verse
   * and is shorter, while every other user's list is as before.
   */
  lemma PressRemoveButton(s: Store, user: string, k: nat)
    requires user in s && k < |s[user]|
    ensures var d := RemoveButton(s[user][k]).data;
      && Route(d) == Handler.RemoveFavorite
      && RemoveTarget(d) == Some(s[user][k].verseId)
      && var s' := WithRemoved(s, user, s[user][k].verseId);
         && (forall e :: e in s'[user] ==> e.verseId != s[user][k].verseId)
         && |s'[user]| < |s[user]|
         && (forall u :: u in s && u != user ==> s'[u] == s[u])
  {
    WithoutShrinks(s[user], k, s[user][k].verseId);
  }

  /** A chapter as the content API lists it. */
  datatype Chapter = Chapter(id: int, nameArabic: string, nameSimple: string)

  /**
   * The button of one chapter in `browse_surahs`: it routes to `show_surah`,
   * which reads back the chapter's id.
   */
  function ChapterButton(c: Chapter): (b: Button)
    ensures b.Callback? && Route(b.data) == Handler.ShowSurah
    ensures Arg(b.data) == Some(IntToString(c.id))
    ensures ParseInt(Arg(b.data).value) == Some(c.id)
  {
    SurahRoundTrip(c.id);
    Callback(IntToString(c.id) + ". " + c.nameArabic + " (" + c.nameSimple + ")", SurahData(c.id))
  }

  /** The loop of `browse_surahs`: one row per chapter, in order. */
  method ChapterKeyboard(chapters: seq<Chapter>) returns (rows: seq<seq<Button>>)
    ensures |rows| == |chapters|
    ensures forall k :: 0 <= k < |chapters| ==> rows[k] == [ChapterButton(chapters[k])]
  {
    rows := [];
    for i := 0 to |chapters|
      invariant |rows| == i
      invariant forall k :: 0 <= k < i ==> rows[k] == [ChapterButton(chapters[k])]
    {
      rows := rows + [[ChapterButton(chapters[i])]];
    }
  }

  /**
   * `send_verse_group`: the group's text with a listen link to the chapter and
   * a bookmark button for the group's last verse. `surahId` is the text
   * `show_surah` read from its callback data.
   */
  function GroupMessage(surahId: string, g: Group): (m: Message)
    requires '_' !in surahId
    ensures m.text == g.text && |m.keyboard| == 1 && |m.keyboard[0]| == 2
    ensures m.keyboard[0][1].Callback? && Route(m.keyboard[0][1].data) == Handler.AddFavorite
  {
    FavSurahArgIsSurah(surahId, g.lastVerse);
    Message(g.text, [[Link("▶️ استمع", "https://quran.com/" + surahId),
                      Callback("📌 أضف للمفضلة", FavSurahData(surahId, g.lastVerse))]])
  }

  /**
   * `show_surah` for the data of a chapter button and the chapter's verses:
   * one message per group of `GroupVerses`, in order, whose text is the
   * group's and whose bookmark button names the group's last verse.
   */
  method ShowSurah(data: string, verses: seq<Verse>) returns (messages: seq<Message>)
    requires Route(data) == Handler.ShowSurah
    ensures |messages| == |Groups(verses)|
    ensures SentTexts(messages) == Concat(Lines(verses))
    ensures forall k :: 0 <= k < |messages| ==>
      messages[k] == GroupMessage(Arg(data).value, Groups(verses)[k])
  {
    var surahId := Arg(data).value;
    var groups := GroupVerses(verses);
    GroupsText(verses);
    messages := seq(|groups|, k requires 0 <= k < |groups| => GroupMessage(surahId, groups[k]));
    MessagesText(surahId, groups, messages);
  }

  /**
   * The texts of a run of messages, in order: `Concat` of their texts, folded
   * over the messages as `SentText` folds over groups, so `MessagesText`
   * relates the two by one induction.
   */
  function SentTexts(messages: seq<Message>): string
  {
    if messages == [] then "" else SentTexts(messages[..|messages| - 1]) + messages[|messages| - 1].text
  }

  lemma {:induction false} MessagesText(surahId: string, groups: seq<Group>, messages: seq<Message>)
    requires '_' !in surahId && |messages| == |groups|
    requires forall k :: 0 <= k < |groups| ==> messages[k] == GroupMessage(surahId, groups[k])
    ensures SentTexts(messages) == SentText(groups)
  {
    if groups != [] {
      MessagesText(surahId, groups[..|groups| - 1], messages[..|messages| - 1]);
    }
  }

  /**
   * Corrected: the bookmark button of a chapter's group names the group's last
   * verse by chapter and number.
   */
  lemma GroupButtonTarget(surahId: int, g: Group)
    ensures '_' !in IntToString(surahId)
      && FavoriteTarget(GroupMessage(IntToString(surahId), g).keyboard[0][1].data) == Some(ByKey(surahId, g.lastVerse))
  {
    IntToStringNoUnderscore(surahId);
    FavTargetByKey(surahId, g.lastVerse);
  }
}
