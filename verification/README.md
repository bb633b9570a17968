# Quran Telegram bot — a Dafny model of its logic

`bot.py` is a Telegram bot that lets a user browse the chapters (surahs) of
the Quran, search for verses, and keep a list of favourite verses in a JSON
file. Most of it forwards data between the Quran content API and Telegram.
This project models the parts that compute something:

- **Favourites store** (`favorites.dfy`): the JSON file as a `FileState`.
  - `load_favorites` falls back to an empty store when the file is missing or
    `json.load` rejects its content; `save_favorites` writes the store back.
  - The dictionary a handler changes in place is the class
    `FavoritesDict`. `Add` appends and `Remove` filters; both are specified by
    the pure functions `WithAdded`, `WithRemoved` and `Without`.
  - The list comprehension of `remove_favorite` is the loop `FilterOut`.
- **Callback data** (`callbacks.dfy`): the `surah_`, `fav_`, `tafsir_`,
  `remove_` and `fav_surah_` encoders.
  - The dispatcher's routing by pattern is `Route`.
  - The handlers read their argument back with `data.split('_')[1]`, which is
    `Arg`, built on Python's `str.split`, `str(int)` and `int(str)` from
    `pystr.dfy`.
- **Grouping loop of `show_surah`** (`grouping.dfy`): verse lines go into a
  buffer, and the buffer is sent whenever the next line would make it longer
  than 4000 characters.
  - The method `GroupVerses` is that loop.
  - `Turn` and `Run` state it turn by turn, and `GroupLines` and `Groups`
    give the groups it sends. These are specification functions without
    contracts of their own. The lemmas about them prove that nothing is lost
    or reordered, that sizes are bounded, where each cut is made, and which
    verse number tags each group: `TurnBuffered` and `TurnGroup` for `Turn`,
    `RunBuffered`, `RunGroup` and `RunPrefix` for `Run`, `LinesText` and
    `LinesGroup` for `GroupLines`, and `GroupsText`, `GroupsCut` and
    `GroupVerses` for `Groups`.
  - When `i == 0`, Python's `verses[i - 1]` is the last verse. The model
    reproduces this through `PyAt`.
- **Search mode** (`search.dfy`): the `search_mode` flag of a user's
  session is the class `Session`. `SearchVerse` sets it, and `HandleSearch`
  answers only while it is set and clears it only after showing results.
  `ModeAfterPending` characterises the flag after any sequence of events.
- **Subscription checks** (`subscription.dfy`): the `check_subscription`
  decorator (`Guard`) and the callback of its "check" button
  (`CheckSubscriptionCallback`). They disagree on exactly one status,
  `"restricted"`.
- **Handlers** (`handlers.dfy`): `add_favorite`, `remove_favorite`,
  `show_favorites`, `favorites_keyboard`, the keyboard loop of
  `browse_surahs`, and `show_surah` with `send_verse_group`. The three
  favourites handlers take the stored `FileState`; `add_favorite` and
  `remove_favorite` also return the file they leave behind. Each handler
  returns what it sends.

The Quran API's answers (chapters, verses, search hits), the user's id and
the member status that `get_chat_member` reports are all inputs. The API's
chapter field is `chapter_id`; the stored entry keeps it under `surah_id`
(bot.py:188).

## Model

| member | source | states |
|---|---|---|
| Favorites.Load | bot.py:29-34 | A missing file (`FileNotFoundError`) or content `json.load` rejects (`JSONDecodeError`) loads as the empty store. A decoded object loads unchanged. |
| Favorites.Save | bot.py:37-39 | Loading the saved file gives back exactly the saved store. |
| Favorites.ListOf | bot.py:201 | `get(user_id, [])`: a user with an entry gets that list, any other user gets `[]`. |
| Favorites.Without | bot.py:236 | The filtered list is no longer than the original. It has no entry with the given verse id. It keeps every entry with another id, and every entry in it was in the original. |
| Favorites.WithoutAppend | bot.py:236 | Filtering a concatenation filters each part, so kept entries stay in their original relative order. |
| Favorites.WithoutAbsent | bot.py:236 | A list without the verse id is left unchanged. |
| Favorites.WithoutIdempotent | bot.py:236 | Filtering twice for the same id equals filtering once. |
| Favorites.WithoutSingle | bot.py:236 | A one-entry list is kept exactly when its id differs. |
| Favorites.WithAdded | bot.py:183-191 | The user's list becomes the old list (or `[]` if the user was absent) plus the new entry. It grows by one even when the verse is already there. Only that user's key is added, and every other user's list is unchanged. |
| Favorites.WithRemoved | bot.py:235-236 | The store's keys are unchanged. An absent user leaves the store unchanged. A present user's list is filtered. Other users are untouched. |
| Favorites.RemoveIdempotent | bot.py:235-236 | Removing the same verse id twice gives the same store as removing it once. |
| Favorites.AddThenRemove | bot.py:183-236 | Adding an entry whose verse id is not in the user's list, then removing that id, restores the user's former list. |
| Favorites.LostUpdate | bot.py:182-193 | Two load, add, save cycles that start from the same file keep only the later addition. The earlier bookmark is lost. |
| Favorites.FilterOut | bot.py:236 | The comprehension, one entry at a time, computes `Without`. |
| Favorites.FavoritesDict.constructor | bot.py:182 | The dictionary is what `load_favorites` returns. |
| Favorites.FavoritesDict.Add | bot.py:183-191 | The in-place `if user not in favorites: favorites[user] = []` and `.append(e)` leave the dictionary equal to `WithAdded` of the old one. |
| Favorites.FavoritesDict.Remove | bot.py:235-236 | The in-place reassignment leaves the dictionary equal to `WithRemoved` of the old one. |
| PyStr.IntToString | bot.py:175 | `str(n)` is never empty. It is all digits for `n >= 0`, and it starts with a minus sign exactly when `n < 0`. |
| PyStr.ParseInt | bot.py:236 | `int()` succeeds exactly on digits, or on a minus sign followed by at least one digit; a lone `-` fails. Digits give their value, and `-` with digits gives the negated value. |
| PyStr.IntRoundTrip | bot.py:236 | `int(str(n)) == n` for every int. |
| PyStr.IntToStringInjective | bot.py:175 | Different ints print differently. |
| PyStr.Split | bot.py:109 | `split` gives at least one piece, and no piece contains the separator. |
| PyStr.JoinSplit | bot.py:109 | Joining the pieces of `split` with the separator gives back the string. |
| Callbacks.SurahData | bot.py:98 | `surah_{id}` has exactly two fields, `surah` and `str(id)`. |
| Callbacks.TafsirData | bot.py:161 | `tafsir_{id}` has exactly two fields, `tafsir` and `str(id)`. |
| Callbacks.FavData | bot.py:162 | `fav_{id}` has exactly two fields, `fav` and `str(id)`. |
| Callbacks.RemoveData | bot.py:219 | `remove_{id}` has exactly two fields, `remove` and `str(id)`. |
| Callbacks.FavSurahData | bot.py:129 | For a chapter text without an underscore, `fav_surah_{s}_{v}` has exactly four fields: `fav`, `surah`, `s` and `str(v)`. |
| Callbacks.Arg | bot.py:109 | `data.split('_')[1]` exists exactly when the data has an underscore. It is then the text that follows the first underscore, up to the next underscore or the end of the data. |
| Callbacks.RemoveTarget | bot.py:232-236 | `int(data.split('_')[1])` fails on data without an underscore, and otherwise succeeds exactly when that second field is an integer, which it then is. |
| Callbacks.Route | bot.py:264-270 | Data starting with `surah_`, `fav_` or `remove_` reaches `show_surah`, `add_favorite` or `remove_favorite` respectively, and each of these handlers is reached only by data with its prefix, which has an argument. |
| Callbacks.FixedDataRoutes | bot.py:79-81 | The menu buttons' data and the `check_subscription` data reach their own handlers. |
| Callbacks.RemoveRoundTrip | bot.py:219-236 | `remove_{id}` routes to `remove_favorite`, and its `int(split('_')[1])` is the id. |
| Callbacks.SurahRoundTrip | bot.py:97-109 | `surah_{id}` routes to `show_surah`, and its argument is `str(id)`, which parses back to the id. |
| Callbacks.FavRoundTrip | bot.py:162-178 | `fav_{id}` routes to `add_favorite`, and its argument is `str(id)`. |
| Callbacks.TafsirUnhandled | bot.py:161 | `tafsir_{id}` reaches no handler. |
| Callbacks.FavSurahArgIsSurah | bot.py:178 | A verse group's bookmark data routes to `add_favorite`, where `split('_')[1]` is `"surah"`, which is not an int. |
| Callbacks.FavoriteTarget | bot.py:177-179 | Corrected reading: a verse is named only by data that starts with `fav_`. |
| Callbacks.FavTargetById | bot.py:162 | Corrected reading of a search hit's button: the verse with that id. |
| Callbacks.FavTargetByKey | bot.py:129 | Corrected reading of a verse group's button: the group's last verse, by chapter and number. |
| Grouping.Line | bot.py:116 | A verse line is never empty. |
| Grouping.Lines | bot.py:115-116 | One line per verse, in order. |
| Grouping.PyAt | bot.py:118 | Python indexing, where a negative index counts from the end. |
| Grouping.TurnBuffered | bot.py:117-120 | One turn keeps the loop invariant. The buffer holds the lines since the last flush and is within 4000 characters or a single line. What was sent plus the buffer is the lines read so far. |
| Grouping.RunBuffered | bot.py:114-120 | The invariant holds after every turn. |
| Grouping.KeepGroup | bot.py:118 | Sending another group leaves the earlier groups as they were. |
| Grouping.NewGroup | bot.py:117-119 | A flushed buffer is the lines since the previous cut and is tagged with Python's `verses[i-1]`. It is within the limit or a single line. It is empty only when it is the first group, cut before line 0. It was cut because the next line did not fit. |
| Grouping.TurnGroup | bot.py:117-120 | One turn keeps every sent group well cut and cuts any new one well. |
| Grouping.RunGroup | bot.py:115-120 | Every group sent by the loop is well cut and was flushed only because the next line did not fit. |
| Grouping.RunPrefix | bot.py:118 | The loop only appends groups. |
| Grouping.LinesText | bot.py:114-123 | The sent texts, concatenated in order, are all the lines. Nothing is sent exactly when there are no lines. |
| Grouping.LinesGroup | bot.py:114-123 | Each group, including the final one tagged with `verses[-1]`, is well cut. The last group ends at the last line, and each earlier one was flushed only when full. |
| Grouping.GroupsText | bot.py:114-123 | For a chapter's verses, the concatenation of the sent texts is the concatenation of the verse lines. An empty chapter sends nothing. |
| Grouping.GroupsCut | bot.py:114-123 | All groups of a chapter are cut as `Grouped` says: size bound, tags, and flush only when the next line would exceed 4000. |
| Grouping.FirstGroupLines | bot.py:117-118 | The first group is empty exactly when the first line alone is over 4000 characters. It is then tagged with the last verse. |
| Grouping.FirstGroupEmpty | bot.py:117-118 | The same for a chapter: an over-long first verse yields an empty first message tagged with the chapter's last verse number. |
| Grouping.GroupVerses | bot.py:114-123 | The loop sends exactly `Groups(verses)`. |
| Search.ResultMessage | bot.py:158-167 | A hit's reply ends with the hit's text. Its one keyboard row holds a `tafsir` and a `fav` button, each carrying the hit's verse id as its second field. |
| Search.ResultButtons | bot.py:159-163 | A hit's commentary button reaches no handler. Its bookmark button reaches `add_favorite` with the hit's verse id. |
| Search.ResultMessages | bot.py:158-167 | One reply per hit, in the API's order. |
| Search.Next | bot.py:143-169 | The button sets the flag. A message leaves it clear when it was clear. When it was set, it stays set exactly when the search found nothing. |
| Search.ModeAfterPending | bot.py:143-169 | After any events, the session is in search mode exactly when the button was pressed and no message since found anything. |
| Search.EmptySearchKeepsMode | bot.py:154-156 | A search that finds nothing leaves the session in search mode. |
| Search.Session.constructor | bot.py:147 | A new session is not in search mode, because `get` returns `None`. |
| Search.Session.SearchVerse | bot.py:140-144 | Sets the flag and asks for a search term. |
| Search.Session.HandleSearch | bot.py:146-169 | Outside search mode: no reply. No hits: the "no results" reply, and the mode stays on. Otherwise: one reply per hit, and the mode ends. |
| Subscription.MainMenu | bot.py:77-83 | Four one-button rows: browse, search and favourites reach their handlers, and the last row is a link. |
| Subscription.Welcome | bot.py:61-68 | The greeting starts with the user's first name and ends with the fixed tagline. The keyboard is the main menu. |
| Subscription.Guard | bot.py:42-58 | The wrapped handler runs exactly when the status is neither `left` nor `kicked`. Otherwise the user gets the prompt, whose check button reaches `check_subscription_callback`. |
| Subscription.CheckSubscriptionCallback | bot.py:242-250 | The user is welcomed exactly when the status is member, administrator or creator. Otherwise the reply is the "not yet" notification (`query.answer` without `show_alert`). |
| Subscription.WelcomedPassesGuard | bot.py:247 | Every user the check button welcomes also passes the decorator. |
| Subscription.ChecksDisagreeOnlyOnRestricted | bot.py:247 | Of the six chat-member statuses, the decorator and the check button disagree only on `restricted`. |
| Handlers.UserKey | bot.py:175 | A user's key `str(id)` parses back to the user's id. |
| Handlers.UserKeysDistinct | bot.py:175 | Different users have different keys in the store. |
| Handlers.EntryOf | bot.py:186-191 | The stored entry takes the API verse's id, chapter, number and text. |
| Handlers.AddFavorite | bot.py:172-195 | As written: replies exactly when the data starts with `fav_` and the API returns a verse for the id text `split('_')[1]`. The user's saved list is then the old list plus that verse's entry. Otherwise the file is unchanged. |
| Handlers.GroupBookmarkFetchesSurah | bot.py:129 | As written: every verse group's bookmark button makes `add_favorite` ask the API for the verse with id `surah`, whatever the chapter and verse. |
| Handlers.AddFavoriteCorrected | bot.py:172-195 | Corrected: replies exactly when the data starts with `fav_`, names a verse as `FavoriteTarget` reads it, and the API returns that verse. The user's saved list is then the old list plus that verse's entry. Otherwise the file is unchanged. |
| Handlers.RemoveFavorite | bot.py:228-239 | Fails exactly when the data has no argument, or when `int()` runs on a non-integer for a user with bookmarks. An absent user leaves the file unchanged, and an empty list is saved as it was. Otherwise the saved store is `WithRemoved`. |
| Handlers.FavLine | bot.py:209 | A bookmark's line is its `surah:verse - ` reference, then its text, then a blank line. |
| Handlers.FavLines | bot.py:208-209 | One line per bookmark, in order. |
| Handlers.FavoritesText | bot.py:207-209 | The loop's text is the header followed by every bookmark's line, in order. |
| Handlers.ShowFavorites | bot.py:197-211 | A user without bookmarks gets the "none yet" text. Otherwise the header, then each bookmark's line in order, with one keyboard row per bookmark. |
| Handlers.FavoritesKeyboard | bot.py:213-226 | One row per bookmark, in order: its remove button and its listen link. |
| Handlers.RemoveButton | bot.py:217-220 | A bookmark's remove button reaches `remove_favorite`, which reads back that bookmark's verse id. |
| Handlers.ListenButton | bot.py:221-224 | A bookmark's listen button links to the Quran site, and the link's path is the chapter and then the verse number. |
| Handlers.WithoutShrinks | bot.py:236 | Removing an id that is present makes the list strictly shorter. |
| Handlers.PressRemoveButton | bot.py:219-237 | Pressing a listed bookmark's remove button removes every entry of that verse and shortens the list. Other users are untouched. |
| Handlers.ChapterButton | bot.py:95-98 | A chapter's button reaches `show_surah`, whose argument parses back to the chapter id. |
| Handlers.ChapterKeyboard | bot.py:93-98 | One row per chapter, in the API's order. |
| Handlers.GroupMessage | bot.py:125-137 | The message is the group's text with one row of two buttons. As written, the bookmark button routes to `add_favorite`. |
| Handlers.ShowSurah | bot.py:106-123 | One message per group of `Groups(verses)`, in order. Together their texts are all the verse lines. |
| Handlers.MessagesText | bot.py:122-134 | The sent messages' texts, in order, are the groups' texts. |
| Handlers.GroupButtonTarget | bot.py:129 | Corrected: a group's bookmark button names the group's last verse in its chapter. |

## Left out

- The HTTP requests to the Quran API (bot.py:90, 111, 151, 179) are not modelled. Their answers are inputs: the chapter list, the verses, the search hits, and the `fetch` parameter of `Handlers.AddFavorite` and `Handlers.AddFavoriteCorrected`. An API error or an answer without the expected key is only the `None` of `fetch`.
- The search term and the request's `size=5` are not modelled, because only the hits matter.
- The Telegram calls (`reply_text`, `edit_message_text`, `send_message`, `answer`, `get_chat_member`) and `parse_mode='HTML'` are not modelled. Messages are values, and the member status is an input.
- Removing the keyboard after a bookmark (`edit_message_reply_markup`, bot.py:194) is not modelled.
- `Favorites.Load`: only the two exceptions bot.py:33 catches are modelled (`Missing`, `Malformed`). A read that raises anything else escapes `load_favorites` and fails the handler: bytes that are not valid text in the platform's default encoding (`UnicodeDecodeError`, e.g. a write cut off inside a multi-byte Arabic character), or a file that cannot be opened (`PermissionError`, `IsADirectoryError`). Valid JSON that is not an object (`[]`, `null`) is returned as it is and makes bot.py:184 or bot.py:201 raise. `FileState` cannot represent these cases.
- File I/O and JSON encoding are abstracted to `Missing`, `Malformed` and `Json(store)`. A failing write (disk full, permission denied) is not modelled, so `Save` always succeeds.
- Concurrency is not modelled. `Favorites.LostUpdate` shows the lost update of two interleaved load, change and save cycles on values only.
- Handler registration, the webhook or polling start-up and the Flask ping route (bot.py:252-288) are not modelled. The dispatcher's pattern order is kept in `Callbacks.Route`.
- `main_menu` (bot.py:70-75) is never registered with the dispatcher, so only its keyboard (`MainMenu`) is modelled. `check_subscription` wraps only `main_menu` (bot.py:70), so in the running bot `Guard` gates no handler. The model states what the decorator would do.
- Telegram's `sendMessage` rejects an empty text. When the first verse line is over 4000 characters (`Grouping.FirstGroupEmpty`), the bot raises at the first `send_verse_group` and sends no later group. The model's empty first message is what is passed to `send_message`, not what is delivered.
- The source does not parse at bot.py:53-56 and bot.py:165-167, where parentheses are left unclosed. The model follows the evident intent: the prompt is sent, then the handler returns, or the loop goes on to the next hit.
- `PyStr.ParseInt`: `int()` is modelled only on an optional `-` and ASCII digits. Python also accepts surrounding whitespace, a `+`, underscores between digits and non-ASCII digits. Callback data never carries those.
- String lengths are sequence lengths of Unicode characters, as Python's `len` counts code points.
- `Subscription.MainMenu`, `Subscription.Guard`, `Handlers.GroupMessage`, `Search.ResultMessage` and `Search.ResultButtons` state the routes and the shape of their keyboards. They do not state the button captions.

## Findings

| source | as written | input that shows it | evidently intended | confidence | as-written member | corrected member |
|---|---|---|---|---|---|---|
| bot.py:129, bot.py:178 | A verse group's bookmark data `fav_surah_{surah_id}_{last_verse}` routes to `add_favorite`, whose `split('_')[1]` reads `"surah"`. It then asks the API for the verse with id `surah`. | `fav_surah_2_5` | Bookmark verse 5 of chapter 2 | high, not executed | Callbacks.FavSurahArgIsSurah, Handlers.AddFavorite, Handlers.GroupBookmarkFetchesSurah | Callbacks.FavoriteTarget, Callbacks.FavTargetByKey, Handlers.AddFavoriteCorrected, Handlers.GroupButtonTarget |

`Handlers.AddFavorite` is the handler as written: it fetches the verse whose
id is the text `split('_')[1]`, which for a verse group's button is
`surah`. `Handlers.AddFavoriteCorrected` reads the bookmark data with
`Callbacks.FavoriteTarget` instead, and `Handlers.GroupButtonTarget` proves
that the button `send_verse_group` builds then names the group's last verse.
