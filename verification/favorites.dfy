/**
 * The favourites store: a JSON object that maps a user's id, as a string, to
 * the list of verses that user bookmarked, in bookmarking order. Each handler
 * loads the whole object, changes the dictionary in place and saves it back.
 */
module Favorites {

  /** One bookmark; the field names of the stored JSON are `verse_id`, `surah_id`, `verse_number`, `text`. */
  datatype Entry = Entry(verseId: int, surahId: int, verseNumber: int, text: string)

  /** The decoded JSON object: user id string to that user's bookmarks. */
  type Store = map<string, seq<Entry>>

  /**
   * What `open` and `json.load` find at the favourites path: no file
   * (`FileNotFoundError`), content `json.load` rejects (`JSONDecodeError`), or
   * a decoded object. Other read errors and JSON that is not an object are
   * not represented.
   */
  datatype FileState = Missing | Malformed | Json(store: Store)

  /** `load_favorites`: a missing or undecodable file reads as the empty store. */
  function Load(f: FileState): (s: Store)
    ensures f.Json? ==> s == f.store
    ensures f.Missing? || f.Malformed? ==> s == map[]
  {
    match f
    case Json(store) => store
    case _ => map[]
  }

  /** `save_favorites`: the whole store replaces the file, and loading it back gives the store. */
  function Save(s: Store): (f: FileState)
    ensures Load(f) == s
  {
    Json(s)
  }

  /** `favorites.get(user_id, [])`: a user's bookmarks, `[]` for a user without an entry in the store. */
  function ListOf(s: Store, user: string): (favs: seq<Entry>)
    ensures user in s ==> favs == s[user]
    ensures user !in s ==> favs == []
  {
    if user in s then s[user] else []
  }

  /** `[fav for fav in favs if fav['verse_id'] != v]`. */
  function Without(favs: seq<Entry>, v: int): (r: seq<Entry>)
    ensures |r| <= |favs|
    ensures forall k :: 0 <= k < |r| ==> r[k].verseId != v
    ensures forall e :: e in r ==> e in favs
    ensures forall e :: e in favs && e.verseId != v ==> e in r
  {
    if favs == [] then []
    else
      var last := favs[|favs| - 1];
      Without(favs[..|favs| - 1], v) + (if last.verseId == v then [] else [last])
  }

  /** The filter works piece by piece, so the kept entries stay in their original order. */
  lemma {:induction false} WithoutAppend(a: seq<Entry>, b: seq<Entry>, v: int)
    ensures Without(a + b, v) == Without(a, v) + Without(b, v)
    decreases |b|
  {
    if b == [] {
      assert a + b == a;
    } else {
      var init, last := b[..|b| - 1], b[|b| - 1];
      var kept := if last.verseId == v then [] else [last];
      assert (a + b)[..|a + b| - 1] == a + init && (a + b)[|a + b| - 1] == last;
      WithoutAppend(a, init, v);
      calc {
        Without(a + b, v);
        Without(a + init, v) + kept;
        (Without(a, v) + Without(init, v)) + kept;
        Without(a, v) + (Without(init, v) + kept);
        Without(a, v) + Without(b, v);
      }
    }
  }

  /** A list with no entry for `v` is kept whole. */
  lemma {:induction false} WithoutAbsent(favs: seq<Entry>, v: int)
    requires forall k :: 0 <= k < |favs| ==> favs[k].verseId != v
    ensures Without(favs, v) == favs
  {
    if favs != [] {
      var init, last := favs[..|favs| - 1], favs[|favs| - 1];
      WithoutAbsent(init, v);
      assert last.verseId != v;
      calc {
        Without(favs, v);
        Without(init, v) + [last];
        init + [last];
        favs;
      }
    }
  }

  /** Filtering twice for the same verse id is filtering once. */
  lemma WithoutIdempotent(favs: seq<Entry>, v: int)
    ensures Without(Without(favs, v), v) == Without(favs, v)
  {
    WithoutAbsent(Without(favs, v), v);
  }

  /** Each entry is kept exactly when its verse id differs from `v`. */
  lemma {:induction false} WithoutSingle(e: Entry, v: int)
    ensures Without([e], v) == if e.verseId == v then [] else [e]
  {
    assert [e][..0] == [];
  }

  /** The store after `add_favorite`: the entry goes at the end of the user's list, created if missing. */
  function WithAdded(s: Store, user: string, e: Entry): (r: Store)
    ensures user in r && r[user] == ListOf(s, user) + [e]
    ensures |r[user]| == |ListOf(s, user)| + 1
    ensures r.Keys == s.Keys + {user}
    ensures forall u :: u in s && u != user ==> r[u] == s[u]
  {
    s[user := ListOf(s, user) + [e]]
  }

  /** The store after `remove_favorite` has filtered the user's list; an absent user leaves it as it was. */
  function WithRemoved(s: Store, user: string, v: int): (r: Store)
    ensures r.Keys == s.Keys
    ensures user !in s ==> r == s
    ensures user in s ==> r[user] == Without(s[user], v)
    ensures forall u :: u in s && u != user ==> r[u] == s[u]
  {
    if user in s then s[user := Without(s[user], v)] else s
  }

  /** Removing the same verse twice is removing it once. */
  lemma RemoveIdempotent(s: Store, user: string, v: int)
    ensures WithRemoved(WithRemoved(s, user, v), user, v) == WithRemoved(s, user, v)
  {
    if user in s {
      WithoutIdempotent(s[user], v);
    }
  }

  /**
   * Bookmarking a verse the user had not bookmarked and then removing it gives
   * back the user's former list (an empty one for a new user).
   */
  lemma AddThenRemove(s: Store, user: string, e: Entry)
    requires forall k :: 0 <= k < |ListOf(s, user)| ==> ListOf(s, user)[k].verseId != e.verseId
    ensures WithRemoved(WithAdded(s, user, e), user, e.verseId) == s[user := ListOf(s, user)]
  {
    var old_ := ListOf(s, user);
    WithoutAppend(old_, [e], e.verseId);
    WithoutAbsent(old_, e.verseId);
    WithoutSingle(e, e.verseId);
    assert old_ + [] == old_;
  }

  /**
   * Two handlers that load the same file and each save their own addition
   * (the uncoordinated load, change, save cycle) keep only the later one:
   * the earlier bookmark is lost.
   */
  lemma LostUpdate(f: FileState, user: string, e1: Entry, e2: Entry)
    requires e1 != e2 && e1 !in ListOf(Load(f), user)
    ensures var first := Save(WithAdded(Load(f), user, e1));
            var second := Save(WithAdded(Load(f), user, e2));
            e1 in Load(first)[user] && e1 !in Load(second)[user]
  {
  }

  /**
   * The list comprehension of `remove_favorite`, one entry at a time: the
   * result is the list without the entries for `v`.
   */
  method FilterOut(favs: seq<Entry>, v: int) returns (kept: seq<Entry>)
    ensures kept == Without(favs, v)
  {
    kept := [];
    var i := 0;
    while i < |favs|
      invariant 0 <= i <= |favs|
      invariant kept == Without(favs[..i], v)
    {
      assert favs[..i + 1][..i] == favs[..i];
      if favs[i].verseId != v {
        kept := kept + [favs[i]];
      }
      i := i + 1;
    }
    assert favs[..i] == favs;
  }

  /** The dictionary a handler loaded, which it then changes in place. */
  class FavoritesDict {
    var entries: Store

    /** `favorites = load_favorites()`. */
    constructor (f: FileState)
      ensures entries == Load(f)
    {
      entries := Load(f);
    }

    /** `if user not in favorites: favorites[user] = []`, then `.append(e)`; duplicates are kept. */
    method Add(user: string, e: Entry)
      modifies this
      ensures entries == WithAdded(old(entries), user, e)
    {
      if user !in entries {
        entries := entries[user := []];
      }
      entries := entries[user := entries[user] + [e]];
    }

    /** The filtered list replaces the user's list, when the user has one. */
    method Remove(user: string, v: int)
      modifies this
      ensures entries == WithRemoved(old(entries), user, v)
    {
      if user in entries {
        var kept := FilterOut(entries[user], v);
        entries := entries[user := kept];
      }
    }
  }
}
