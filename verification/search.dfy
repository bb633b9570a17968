/**
 * Verse search: `search_verse` switches the user's session into search mode,
 * and `handle_search` answers a text message only in that mode, leaving it
 * once it has shown some results.
 */
module Search {
  import opened Wrappers
  import opened PyStr
  import opened Callbacks

  /** One hit of the content API's search, as `handle_search` reads it. */
  datatype SearchResult = SearchResult(verseId: int, surahName: string, verseNumber: int, text: string)

  const PromptText: string := "🔍 أرسل الكلمة أو الجملة التي تريد البحث عنها:"
  const NoResultsText: string := "⚠️ لم يتم العثور على نتائج"

  /**
   * The reply for one hit: its chapter and verse number, then its text, with a
   * commentary button and a bookmark button that carry the hit's verse id.
   */
  function ResultMessage(r: SearchResult): (m: Message)
    ensures |r.text| <= |m.text| && m.text[|m.text| - |r.text|..] == r.text
    ensures |m.keyboard| == 1 && |m.keyboard[0]| == 2
    ensures m.keyboard[0][0].Callback? && Split(m.keyboard[0][0].data, '_') == ["tafsir", IntToString(r.verseId)]
    ensures m.keyboard[0][1].Callback? && Split(m.keyboard[0][1].data, '_') == ["fav", IntToString(r.verseId)]
  {
    var head := "سورة " + r.surahName + " الآية " + IntToString(r.verseNumber) + ":\n\n";
    assert (head + r.text)[|head + r.text| - |r.text|..] == r.text;
    Message(head + r.text,
            [[Callback("📘 تفسير", TafsirData(r.verseId)), Callback("📌 أضف للمفضلة", FavData(r.verseId))]])
  }

  /**
   * A hit's commentary button reaches no handler, and its bookmark button
   * reaches `add_favorite` with the hit's verse id.
   */
  lemma ResultButtons(r: SearchResult)
    ensures var m := ResultMessage(r);
      && m.keyboard[0][0].Callback? && Route(m.keyboard[0][0].data) == Unhandled
      && m.keyboard[0][1].Callback? && Route(m.keyboard[0][1].data) == AddFavorite
      && Arg(m.keyboard[0][1].data) == Some(IntToString(r.verseId))
      && FavoriteTarget(m.keyboard[0][1].data) == Some(ById(r.verseId))
  {
    TafsirUnhandled(r.verseId);
    FavRoundTrip(r.verseId);
    FavTargetById(r.verseId);
  }

  /** The loop of `handle_search` over the hits: one reply per hit, in the API's order. */
  method ResultMessages(results: seq<SearchResult>) returns (replies: seq<Message>)
    ensures |replies| == |results|
    ensures forall k :: 0 <= k < |results| ==> replies[k] == ResultMessage(results[k])
  {
    replies := [];
    for i := 0 to |results|
      invariant |replies| == i
      invariant forall k :: 0 <= k < i ==> replies[k] == ResultMessage(results[k])
    {
      replies := replies + [ResultMessage(results[i])];
    }
  }

  /** What reaches the session: the search button, or a text message whose search found `results`. */
  datatype Event = SearchPressed | TextSent(results: seq<SearchResult>)

  /**
   * The flag after one event: the button sets it; a text message clears it
   * only when it was set and the search found something.
   */
  function Next(searchMode: bool, e: Event): (mode: bool)
    ensures e.SearchPressed? ==> mode
    ensures e.TextSent? && !searchMode ==> !mode
    ensures e.TextSent? && searchMode ==> (mode <==> e.results == [])
  {
    match e
    case SearchPressed => true
    case TextSent(results) => searchMode && results == []
  }

  /** The flag after a session's events, starting from a session that never searched. */
  function ModeAfter(events: seq<Event>): bool
  {
    if events == [] then false else Next(ModeAfter(events[..|events| - 1]), events[|events| - 1])
  }

  /** The search button was pressed at `j`, and every message since then found nothing. */
  ghost predicate PendingSince(events: seq<Event>, j: int)
  {
    0 <= j < |events| && events[j].SearchPressed?
    && forall k :: j < k < |events| ==> events[k].TextSent? && events[k].results == []
  }

  /**
   * The session is in search mode exactly when the search button was pressed
   * and no message since then found anything.
   */
  lemma {:induction false} ModeAfterPending(events: seq<Event>)
    ensures ModeAfter(events) <==> exists j :: PendingSince(events, j)
  {
    if events != [] {
      var init, e := events[..|events| - 1], events[|events| - 1];
      ModeAfterPending(init);
      if e.SearchPressed? {
        assert PendingSince(events, |events| - 1);
      } else if ModeAfter(events) {
        var j :| PendingSince(init, j);
        assert PendingSince(events, j);
      } else {
        forall j | 0 <= j < |events|
          ensures !PendingSince(events, j)
        {
          if j < |events| - 1 && PendingSince(events, j) {
            assert PendingSince(init, j);
          }
        }
      }
    }
  }

  /** A search that found nothing leaves the session waiting for another search term. */
  lemma EmptySearchKeepsMode(events: seq<Event>)
    requires ModeAfter(events)
    ensures ModeAfter(events + [TextSent([])])
  {
    assert (events + [TextSent([])])[..|events|] == events;
  }

  /** `context.user_data` of one user: only its `search_mode` key is modelled. */
  class Session {
    /** `user_data.get('search_mode')`; a missing key reads as false. */
    var searchMode: bool

    constructor ()
      ensures !searchMode
    {
      searchMode := false;
    }

    /** `search_verse`: set the flag and ask for the search term. */
    method SearchVerse() returns (prompt: string)
      modifies this
      ensures searchMode == Next(old(searchMode), SearchPressed)
      ensures prompt == PromptText
    {
      searchMode := true;
      prompt := PromptText;
    }

    /**
     * `handle_search` with the API's hits for the message: nothing outside
     * search mode, a "no results" reply that keeps the mode, or one reply per
     * hit that ends it.
     */
    method HandleSearch(results: seq<SearchResult>) returns (replies: seq<Message>)
      modifies this
      ensures searchMode == Next(old(searchMode), TextSent(results))
      ensures !old(searchMode) ==> replies == []
      ensures old(searchMode) && results == [] ==> replies == [Message(NoResultsText, [])]
      ensures old(searchMode) && results != [] ==>
        |replies| == |results| && forall k :: 0 <= k < |results| ==> replies[k] == ResultMessage(results[k])
    {
      if !searchMode {
        return [];
      }
      if results == [] {
        return [Message(NoResultsText, [])];
      }
      replies := ResultMessages(results);
      searchMode := false;
    }
  }
}
