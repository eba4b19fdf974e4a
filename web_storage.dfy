/**
 * The web catalog store of lib/storage.ts. The browser database holds four
 * lists under four keys; a missing key reads as the empty list, so the
 * store is modelled as four list fields. Every method reads a list,
 * changes it (append, replace at an index, filter) and writes it back.
 * Identifiers and clock readings are parameters.
 */
module WebStorage {
  import opened JsText
  import opened Catalog

  class StorageService {
    var content: seq<ContentItem>
    var history: seq<ViewingHistory>
    var bookmarks: seq<Bookmark>
    var ratings: seq<UserRating>

    /** The four collections, as `exportData` reads them. */
    function Exported(): Snapshot
      reads this
    {
      Snapshot(content, history, bookmarks, ratings)
    }

    /** A fresh database: every key is missing. */
    constructor()
      ensures Exported() == Snapshot([], [], [], [])
    {
      content := [];
      history := [];
      bookmarks := [];
      ratings := [];
    }

    /** Appends the auto-filled draft, stamped with the given id and time, after the existing items. */
    method AddContent(draft: Draft, id: string, now: int) returns (item: ContentItem)
      modifies this
      ensures item == Stamp(AutoFill(draft), id, now)
      ensures content == old(content) + [item]
      ensures unchanged(this`history, this`bookmarks, this`ratings)
    {
      var processed := AutoFill(draft);
      item := Stamp(processed, id, now);
      var existing := GetAllContent();
      content := existing + [item];
    }

    method GetAllContent() returns (r: seq<ContentItem>)
      ensures r == content
    {
      r := content;
    }

    /** The first item with the id, or None. */
    method GetContent(id: string) returns (r: Option<ContentItem>)
      ensures r == Find(content, ItemId, id)
    {
      var all := GetAllContent();
      r := Find(all, ItemId, id);
    }

    /**
     * Merges the update over the first item with the id, in place, and
     * returns the merged item; returns None and writes nothing when no item
     * has the id.
     */
    method UpdateContent(id: string, updates: ContentUpdate) returns (r: Option<ContentItem>)
      modifies this
      ensures FindKey(old(content), ItemId, id).None? ==> r.None? && content == old(content)
      ensures FindKey(old(content), ItemId, id).Some? ==>
        var i := FindKey(old(content), ItemId, id).value;
        r == Some(Merge(old(content)[i], updates)) && content == old(content)[i := r.value]
      ensures unchanged(this`history, this`bookmarks, this`ratings)
    {
      var all := GetAllContent();
      var index := FindKey(all, ItemId, id);
      if index.None? {
        return None;
      }
      all := all[index.value := Merge(all[index.value], updates)];
      content := all;
      r := Some(all[index.value]);
    }

    /**
     * Removes every item with the id together with that content's history,
     * bookmark and rating, and reports whether anything was removed; when no
     * item has the id nothing is written.
     */
    method DeleteContent(id: string) returns (deleted: bool)
      modifies this
      ensures deleted <==> exists j :: 0 <= j < |old(content)| && old(content)[j].id == id
      ensures deleted ==> Exported() == Snapshot(
        RemoveKey(old(content), ItemId, id), RemoveKey(old(history), HistoryKey, id),
        RemoveKey(old(bookmarks), BookmarkKey, id), RemoveKey(old(ratings), RatingKey, id))
      ensures !deleted ==> unchanged(this)
    {
      var all := GetAllContent();
      var filtered := RemoveKey(all, ItemId, id);
      RemoveKeySpec(all, ItemId, id);
      if |filtered| == |all| {
        return false;
      }
      content := filtered;
      DeleteViewingHistory(id);
      RemoveBookmark(id);
      RemoveUserRating(id);
      deleted := true;
    }

    /** Replaces the entry for the same content in place, or appends. */
    method SaveViewingHistory(h: ViewingHistory)
      modifies this
      ensures history == Upsert(old(history), HistoryKey, h)
      ensures unchanged(this`content, this`bookmarks, this`ratings)
    {
      var all := GetAllViewingHistory();
      var existing := FindKey(all, HistoryKey, h.contentId);
      if existing.Some? {
        all := all[existing.value := h];
      } else {
        all := all + [h];
      }
      history := all;
    }

    method GetViewingHistory(contentId: string) returns (r: Option<ViewingHistory>)
      ensures r == Find(history, HistoryKey, contentId)
    {
      var all := GetAllViewingHistory();
      r := Find(all, HistoryKey, contentId);
    }

    method GetAllViewingHistory() returns (r: seq<ViewingHistory>)
      ensures r == history
    {
      r := history;
    }

    method DeleteViewingHistory(contentId: string)
      modifies this
      ensures history == RemoveKey(old(history), HistoryKey, contentId)
      ensures unchanged(this`content, this`bookmarks, this`ratings)
    {
      var all := GetAllViewingHistory();
      history := RemoveKey(all, HistoryKey, contentId);
    }

    /** Replaces the bookmark for the same content in place, or appends. */
    method AddBookmark(b: Bookmark)
      modifies this
      ensures bookmarks == Upsert(old(bookmarks), BookmarkKey, b)
      ensures unchanged(this`content, this`history, this`ratings)
    {
      var all := GetBookmarks();
      var existing := FindKey(all, BookmarkKey, b.contentId);
      if existing.Some? {
        all := all[existing.value := b];
      } else {
        all := all + [b];
      }
      bookmarks := all;
    }

    method RemoveBookmark(contentId: string)
      modifies this
      ensures bookmarks == RemoveKey(old(bookmarks), BookmarkKey, contentId)
      ensures unchanged(this`content, this`history, this`ratings)
    {
      var all := GetBookmarks();
      bookmarks := RemoveKey(all, BookmarkKey, contentId);
    }

    method GetBookmarks() returns (r: seq<Bookmark>)
      ensures r == bookmarks
    {
      r := bookmarks;
    }

    /** Records the rating with the given time, replacing an earlier rating of the same content in place. */
    method SaveUserRating(contentId: string, rating: int, now: int)
      modifies this
      ensures ratings == Upsert(old(ratings), RatingKey, UserRating(contentId, rating, now))
      ensures unchanged(this`content, this`history, this`bookmarks)
    {
      var all := GetUserRatings();
      var existing := FindKey(all, RatingKey, contentId);
      var userRating := UserRating(contentId, rating, now);
      if existing.Some? {
        all := all[existing.value := userRating];
      } else {
        all := all + [userRating];
      }
      ratings := all;
    }

    /** The stored rating, where a stored 0 reads as no rating (`rating?.rating || null`). */
    method GetUserRating(contentId: string) returns (r: Option<int>)
      ensures r == StoredRating(ratings, contentId)
    {
      var all := GetUserRatings();
      var found := Find(all, RatingKey, contentId);
      if found.Some? && found.value.rating != 0 {
        r := Some(found.value.rating);
      } else {
        r := None;
      }
    }

    method GetUserRatings() returns (r: seq<UserRating>)
      ensures r == ratings
    {
      r := ratings;
    }

    method RemoveUserRating(contentId: string)
      modifies this
      ensures ratings == RemoveKey(old(ratings), RatingKey, contentId)
      ensures unchanged(this`content, this`history, this`bookmarks)
    {
      var all := GetUserRatings();
      ratings := RemoveKey(all, RatingKey, contentId);
    }

    method ExportData() returns (r: Snapshot)
      ensures r == Exported()
    {
      var c := GetAllContent();
      var h := GetAllViewingHistory();
      var b := GetBookmarks();
      var u := GetUserRatings();
      r := Snapshot(c, h, b, u);
    }

    /** Overwrites all four collections; importing what was exported changes nothing. */
    method ImportData(data: Snapshot)
      modifies this
      ensures Exported() == data
    {
      content := data.content;
      history := data.history;
      bookmarks := data.bookmarks;
      ratings := data.ratings;
    }

    /** Clears the whole database, after which every collection reads as empty. */
    method ClearAllData()
      modifies this
      ensures Exported() == Snapshot([], [], [], [])
    {
      content := [];
      history := [];
      bookmarks := [];
      ratings := [];
    }
  }
}
