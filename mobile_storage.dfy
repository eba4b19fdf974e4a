/**
 * The mobile catalog store of src/services/StorageService.ts. The device
 * key-value store holds the four lists as serialised text under four keys.
 * Each key is a slot that is missing, holds text that does not parse, or
 * holds a list; every getter reads a missing or unreadable slot as the
 * empty list. Writers store the whole list back. Identifiers and clock
 * readings are parameters.
 */
module MobileStorage {
  import opened JsText
  import opened Catalog

  /** One key of the device store. */
  datatype Slot<T> = Missing | Corrupt | Stored(items: seq<T>)

  /** `value ? JSON.parse(value) : []`, with `[]` also when parsing throws. */
  function Items<T>(slot: Slot<T>): (r: seq<T>)
    ensures slot.Stored? ==> r == slot.items
    ensures !slot.Stored? ==> r == []
  {
    if slot.Stored? then slot.items else []
  }

  class StorageService {
    var contentSlot: Slot<ContentItem>
    var historySlot: Slot<ViewingHistory>
    var bookmarksSlot: Slot<Bookmark>
    var ratingsSlot: Slot<UserRating>

    /** The lists the four getters return. */
    function Content(): seq<ContentItem> reads this { Items(contentSlot) }
    function History(): seq<ViewingHistory> reads this { Items(historySlot) }
    function Bookmarks(): seq<Bookmark> reads this { Items(bookmarksSlot) }
    function Ratings(): seq<UserRating> reads this { Items(ratingsSlot) }

    /** The four collections, as `exportData` reads them. */
    function Exported(): Snapshot
      reads this
    {
      Snapshot(Content(), History(), Bookmarks(), Ratings())
    }

    /** A fresh device store: every key is missing. */
    constructor()
      ensures contentSlot == Missing && historySlot == Missing && bookmarksSlot == Missing && ratingsSlot == Missing
      ensures Exported() == Snapshot([], [], [], [])
    {
      contentSlot := Missing;
      historySlot := Missing;
      bookmarksSlot := Missing;
      ratingsSlot := Missing;
    }

    /** Appends the auto-filled draft, stamped with the given id and time, after the existing items. */
    method AddContent(draft: Draft, id: string, now: int) returns (item: ContentItem)
      modifies this
      ensures item == Stamp(AutoFill(draft), id, now)
      ensures Content() == old(Content()) + [item]
      ensures unchanged(this`historySlot, this`bookmarksSlot, this`ratingsSlot)
    {
      var processed := AutoFill(draft);
      item := Stamp(processed, id, now);
      var existing := GetAllContent();
      contentSlot := Stored(existing + [item]);
      assert Content() == existing + [item];
    }

    method GetAllContent() returns (r: seq<ContentItem>)
      ensures r == Content()
    {
      r := Items(contentSlot);
    }

    /** The first item with the id, or None. */
    method GetContent(id: string) returns (r: Option<ContentItem>)
      ensures r == Find(Content(), ItemId, id)
    {
      var all := GetAllContent();
      r := Find(all, ItemId, id);
    }

    /**
     * Merges the update over the first item with the id, in place, and
     * returns the merged item; returns None and writes nothing when no item
     * has the id.
     */
    method UpdateContent(id: string, updates: ContentUpdate) returns (r: Option<ContentItem>)
      modifies this
      ensures FindKey(old(Content()), ItemId, id).None? ==> r.None? && Content() == old(Content())
      ensures FindKey(old(Content()), ItemId, id).Some? ==>
        var i := FindKey(old(Content()), ItemId, id).value;
        r == Some(Merge(old(Content())[i], updates)) && Content() == old(Content())[i := r.value]
      ensures unchanged(this`historySlot, this`bookmarksSlot, this`ratingsSlot)
    {
      var all := GetAllContent();
      var index := FindKey(all, ItemId, id);
      if index.None? {
        return None;
      }
      all := all[index.value := Merge(all[index.value], updates)];
      contentSlot := Stored(all);
      r := Some(all[index.value]);
    }

    /**
     * Removes every item with the id together with that content's history,
     * bookmark and rating, and reports whether anything was removed; when no
     * item has the id nothing is written.
     */
    method DeleteContent(id: string) returns (deleted: bool)
      modifies this
      ensures deleted <==> exists j :: 0 <= j < |old(Content())| && old(Content())[j].id == id
      ensures deleted ==> Exported() == Snapshot(
        RemoveKey(old(Content()), ItemId, id), RemoveKey(old(History()), HistoryKey, id),
        RemoveKey(old(Bookmarks()), BookmarkKey, id), RemoveKey(old(Ratings()), RatingKey, id))
      ensures !deleted ==> unchanged(this)
    {
      var all := GetAllContent();
      var filtered := RemoveKey(all, ItemId, id);
      RemoveKeySpec(all, ItemId, id);
      if |filtered| == |all| {
        return false;
      }
      contentSlot := Stored(filtered);
      DeleteViewingHistory(id);
      RemoveBookmark(id);
      RemoveUserRating(id);
      deleted := true;
    }

    /** Replaces the entry for the same content in place, or appends. */
    method SaveViewingHistory(h: ViewingHistory)
      modifies this
      ensures History() == Upsert(old(History()), HistoryKey, h)
      ensures unchanged(this`contentSlot, this`bookmarksSlot, this`ratingsSlot)
    {
      var all := GetAllViewingHistory();
      var existing := FindKey(all, HistoryKey, h.contentId);
      if existing.Some? {
        all := all[existing.value := h];
      } else {
        all := all + [h];
      }
      historySlot := Stored(all);
    }

    method GetViewingHistory(contentId: string) returns (r: Option<ViewingHistory>)
      ensures r == Find(History(), HistoryKey, contentId)
    {
      var all := GetAllViewingHistory();
      r := Find(all, HistoryKey, contentId);
    }

    method GetAllViewingHistory() returns (r: seq<ViewingHistory>)
      ensures r == History()
    {
      r := Items(historySlot);
    }

    method DeleteViewingHistory(contentId: string)
      modifies this
      ensures History() == RemoveKey(old(History()), HistoryKey, contentId)
      ensures unchanged(this`contentSlot, this`bookmarksSlot, this`ratingsSlot)
    {
      var all := GetAllViewingHistory();
      historySlot := Stored(RemoveKey(all, HistoryKey, contentId));
    }

    /** Replaces the bookmark for the same content in place, or appends. */
    method AddBookmark(b: Bookmark)
      modifies this
      ensures Bookmarks() == Upsert(old(Bookmarks()), BookmarkKey, b)
      ensures unchanged(this`contentSlot, this`historySlot, this`ratingsSlot)
    {
      var all := GetBookmarks();
      var existing := FindKey(all, BookmarkKey, b.contentId);
      if existing.Some? {
        all := all[existing.value := b];
      } else {
        all := all + [b];
      }
      bookmarksSlot := Stored(all);
    }

    method RemoveBookmark(contentId: string)
      modifies this
      ensures Bookmarks() == RemoveKey(old(Bookmarks()), BookmarkKey, contentId)
      ensures unchanged(this`contentSlot, this`historySlot, this`ratingsSlot)
    {
      var all := GetBookmarks();
      bookmarksSlot := Stored(RemoveKey(all, BookmarkKey, contentId));
    }

    method GetBookmarks() returns (r: seq<Bookmark>)
      ensures r == Bookmarks()
    {
      r := Items(bookmarksSlot);
    }

    /** Records the rating with the given time, replacing an earlier rating of the same content in place. */
    method SaveUserRating(contentId: string, rating: int, now: int)
      modifies this
      ensures Ratings() == Upsert(old(Ratings()), RatingKey, UserRating(contentId, rating, now))
      ensures unchanged(this`contentSlot, this`historySlot, this`bookmarksSlot)
    {
      var all := GetUserRatings();
      var existing := FindKey(all, RatingKey, contentId);
      var userRating := UserRating(contentId, rating, now);
      if existing.Some? {
        all := all[existing.value := userRating];
      } else {
        all := all + [userRating];
      }
      ratingsSlot := Stored(all);
    }

    /** The stored rating, where a stored 0 reads as no rating (`rating?.rating || null`). */
    method GetUserRating(contentId: string) returns (r: Option<int>)
      ensures r == StoredRating(Ratings(), contentId)
    {
      var all := GetUserRatings();
      var found := Find(all, RatingKey, contentId);
      if found.Some? && found.value.rating != 0 {
        r := Some(found.value.rating);
      } else {
        r := None;
      }
    }

    method GetUserRatings() returns (r: seq<UserRating>)
      ensures r == Ratings()
    {
      r := Items(ratingsSlot);
    }

    method RemoveUserRating(contentId: string)
      modifies this
      ensures Ratings() == RemoveKey(old(Ratings()), RatingKey, contentId)
      ensures unchanged(this`contentSlot, this`historySlot, this`bookmarksSlot)
    {
      var all := GetUserRatings();
      ratingsSlot := Stored(RemoveKey(all, RatingKey, contentId));
    }

    method ExportData() returns (r: Snapshot)
      ensures r == Exported()
    {
      var c := GetAllContent();
      var h := GetAllViewingHistory();
      var b := GetBookmarks();
      var u := GetUserRatings();
      r := Snapshot(c, h, b, u);
    }

    /** Overwrites all four collections; importing what was exported changes nothing. */
    method ImportData(data: Snapshot)
      modifies this
      ensures Exported() == data
    {
      contentSlot := Stored(data.content);
      historySlot := Stored(data.history);
      bookmarksSlot := Stored(data.bookmarks);
      ratingsSlot := Stored(data.ratings);
    }

    /** Removes all four keys, after which every collection reads as empty. */
    method ClearAllData()
      modifies this
      ensures contentSlot == Missing && historySlot == Missing && bookmarksSlot == Missing && ratingsSlot == Missing
      ensures Exported() == Snapshot([], [], [], [])
    {
      contentSlot := Missing;
      historySlot := Missing;
      bookmarksSlot := Missing;
      ratingsSlot := Missing;
    }
  }
}
