/**
 * The library screens (the web home page and the mobile home screen): the
 * search-and-filter rule for the visible list, and the "recently watched"
 * row built from the viewing history.
 */

module Library {
  import opened JsText
  import opened Catalog

  // ---------------------------------------------------------------------------
  // The visible list

  /** The filter buttons: everything, movies only, series only, or bookmarked items. */
  datatype LibraryFilter = ShowAll | ShowMovies | ShowSeries | ShowBookmarked

  /** `item.title.toLowerCase().includes(searchTerm.toLowerCase())`. */
  predicate MatchesSearch(item: ContentItem, searchTerm: string)
  {
    Contains(LowerAsciiString(item.title), LowerAsciiString(searchTerm), false)
  }

  /** The `switch (filter)` of `filteredContent`. */
  predicate MatchesFilter(item: ContentItem, filter: LibraryFilter, bookmarked: seq<string>)
  {
    match filter
    case ShowAll => true
    case ShowMovies => item.kind == Movie
    case ShowSeries => item.kind == Series
    case ShowBookmarked => item.id in bookmarked
  }

  predicate IsShown(item: ContentItem, searchTerm: string, filter: LibraryFilter, bookmarked: seq<string>)
  {
    MatchesSearch(item, searchTerm) && MatchesFilter(item, filter, bookmarked)
  }

  /** `filteredContent`: `content.filter(...)`. */
  function FilteredContent(content: seq<ContentItem>, searchTerm: string, filter: LibraryFilter,
                           bookmarked: seq<string>): seq<ContentItem>
  {
    Filter(content, (item: ContentItem) => IsShown(item, searchTerm, filter, bookmarked))
  }

  /**
   * An item is shown exactly when it is in the library, its lowercased title
   * holds the lowercased search term at some position, and it passes the
   * selected filter.
   */
  lemma FilteredContentSpec(content: seq<ContentItem>, searchTerm: string, filter: LibraryFilter,
                            bookmarked: seq<string>, item: ContentItem)
    ensures item in FilteredContent(content, searchTerm, filter, bookmarked) <==>
      && item in content
      && (exists j :: 0 <= j <= |item.title| - |searchTerm|
            && MatchesAt(LowerAsciiString(item.title), j, LowerAsciiString(searchTerm), false))
      && (filter == ShowMovies ==> item.kind == Movie)
      && (filter == ShowSeries ==> item.kind == Series)
      && (filter == ShowBookmarked ==> item.id in bookmarked)
  {
    var r := FilteredContent(content, searchTerm, filter, bookmarked);
    ContainsIff(LowerAsciiString(item.title), LowerAsciiString(searchTerm), false);
    if item in r {
      var i :| 0 <= i < |r| && r[i] == item;
    }
    if item in content && IsShown(item, searchTerm, filter, bookmarked) {
      var i :| 0 <= i < |content| && content[i] == item;
    }
  }

  /** An empty search term matches every title, so "All" with no search shows the whole library unchanged. */
  lemma EmptySearchShowsAll(content: seq<ContentItem>, bookmarked: seq<string>)
    ensures FilteredContent(content, "", ShowAll, bookmarked) == content
  {
    var p := (item: ContentItem) => IsShown(item, "", ShowAll, bookmarked);
    forall j | 0 <= j < |content| ensures p(content[j]) {
      assert MatchesAt(LowerAsciiString(content[j].title), 0, LowerAsciiString(""), false);
      ContainsAt(LowerAsciiString(content[j].title), LowerAsciiString(""), false, 0);
    }
    FilterKeepsAll(content, p);
  }

  /** `a` is `b` with some entries left out, the rest in their order. */
  predicate Subsequence<T(==)>(a: seq<T>, b: seq<T>)
    decreases |b|
  {
    if a == [] then true
    else if b == [] then false
    else (a[0] == b[0] && Subsequence(a[1..], b[1..])) || Subsequence(a, b[1..])
  }

  /** Filtering keeps the relative order: the kept entries form a subsequence. */
  lemma {:induction false} FilterSubsequence<T>(xs: seq<T>, p: T -> bool)
    ensures Subsequence(Filter(xs, p), xs)
    decreases |xs|
  {
    if xs != [] {
      var tail := Filter(xs[1..], p);
      FilterSubsequence(xs[1..], p);
      if p(xs[0]) {
        assert Filter(xs, p) == [xs[0]] + tail;
        assert ([xs[0]] + tail)[1..] == tail;
      } else {
        assert Filter(xs, p) == tail;
        if tail != [] {
          assert Subsequence(tail, xs[1..]);
        }
      }
    }
  }

  /** The visible list keeps the library's order. */
  lemma FilteredContentInOrder(content: seq<ContentItem>, searchTerm: string, filter: LibraryFilter,
                               bookmarked: seq<string>)
    ensures Subsequence(FilteredContent(content, searchTerm, filter, bookmarked), content)
  {
    FilterSubsequence(content, (item: ContentItem) => IsShown(item, searchTerm, filter, bookmarked));
  }

  // ---------------------------------------------------------------------------
  // Recently watched

  /** Timestamps never increase along the list. */
  ghost predicate NewestFirst(hs: seq<ViewingHistory>)
  {
    forall i, j :: 0 <= i < j < |hs| ==> hs[i].timestamp >= hs[j].timestamp
  }

  /** Puts `h` before the first entry that is not newer than it. */
  function InsertByRecency(h: ViewingHistory, sorted: seq<ViewingHistory>): seq<ViewingHistory>
  {
    if sorted == [] || h.timestamp >= sorted[0].timestamp then [h] + sorted
    else [sorted[0]] + InsertByRecency(h, sorted[1..])
  }

  /**
   * `history.sort((a, b) => b.timestamp - a.timestamp)`: newest first. The
   * platform's sort is stable; this insertion sort keeps the order of equal
   * timestamps by construction (an entry is inserted ahead of the later
   * entries with its timestamp), which no lemma here states.
   */
  function SortByRecency(history: seq<ViewingHistory>): seq<ViewingHistory>
  {
    if history == [] then [] else InsertByRecency(history[0], SortByRecency(history[1..]))
  }

  lemma {:induction false} InsertPermutes(h: ViewingHistory, sorted: seq<ViewingHistory>)
    ensures multiset(InsertByRecency(h, sorted)) == multiset(sorted) + multiset{h}
    decreases |sorted|
  {
    if sorted != [] && h.timestamp < sorted[0].timestamp {
      InsertPermutes(h, sorted[1..]);
      assert sorted == [sorted[0]] + sorted[1..];
    }
  }

  lemma {:induction false} InsertKeepsOrder(h: ViewingHistory, sorted: seq<ViewingHistory>)
    requires NewestFirst(sorted)
    ensures NewestFirst(InsertByRecency(h, sorted))
    decreases |sorted|
  {
    if sorted != [] && h.timestamp < sorted[0].timestamp {
      var tail := InsertByRecency(h, sorted[1..]);
      InsertKeepsOrder(h, sorted[1..]);
      InsertPermutes(h, sorted[1..]);
      forall j | 0 <= j < |tail| ensures sorted[0].timestamp >= tail[j].timestamp {
        assert tail[j] in multiset(tail);
        if tail[j] != h {
          assert tail[j] in multiset(sorted[1..]);
        }
      }
    }
  }

  /** The sort returns the same entries, newest first. */
  lemma {:induction false} SortByRecencySpec(history: seq<ViewingHistory>)
    ensures multiset(SortByRecency(history)) == multiset(history)
    ensures NewestFirst(SortByRecency(history))
    decreases |history|
  {
    if history != [] {
      SortByRecencySpec(history[1..]);
      InsertPermutes(history[0], SortByRecency(history[1..]));
      InsertKeepsOrder(history[0], SortByRecency(history[1..]));
      assert history == [history[0]] + history[1..];
    }
  }

  /** How many entries the row is meant to keep: 3 when the page counts as a phone, otherwise 5. */
  function RecentLimit(isMobile: bool): nat
  {
    if isMobile then 3 else 5
  }

  /** `storageService.getContent(h.contentId)` finds the entry's item. */
  predicate HasContent(content: seq<ContentItem>, h: ViewingHistory)
  {
    Find(content, ItemId, h.contentId).Some?
  }

  /** The items the loop pushes for the entries `hs`, in their order, skipping entries without an item. */
  function RecentContent(hs: seq<ViewingHistory>, content: seq<ContentItem>): seq<ContentItem>
  {
    if hs == [] then []
    else
      RecentContent(hs[..|hs| - 1], content) +
      match Find(content, ItemId, hs[|hs| - 1].contentId)
      case Some(item) => [item]
      case None => []
  }

  /**
   * `loadRecentlyWatched`: the history sorted newest first, cut to `limit`
   * entries, and the item of each entry that still has one.
   */
  method LoadRecentlyWatched(history: seq<ViewingHistory>, content: seq<ContentItem>, limit: nat)
    returns (recent: seq<ContentItem>)
    ensures recent == RecentContent(JsSlice(SortByRecency(history), 0, limit), content)
  {
    var sorted := SortByRecency(history);
    var recentHistory := JsSlice(sorted, 0, limit);
    recent := [];
    var i := 0;
    while i < |recentHistory|
      invariant 0 <= i <= |recentHistory|
      invariant recent == RecentContent(recentHistory[..i], content)
    {
      var h := recentHistory[i];
      var found := Find(content, ItemId, h.contentId);
      assert recentHistory[..i + 1][..i] == recentHistory[..i];
      if found.Some? {
        recent := recent + [found.value];
      }
      i := i + 1;
    }
    assert recentHistory[..i] == recentHistory;
  }

  /** The row lists, for the entries that have an item, exactly those items, in the entries' order. */
  lemma {:induction false} RecentContentSpec(hs: seq<ViewingHistory>, content: seq<ContentItem>)
    ensures var found := Filter(hs, (h: ViewingHistory) => HasContent(content, h));
      var r := RecentContent(hs, content);
      && |r| == |found|
      && forall i :: 0 <= i < |r| ==> r[i] in content && r[i].id == found[i].contentId
    decreases |hs|
  {
    if hs != [] {
      var p := (h: ViewingHistory) => HasContent(content, h);
      var init := hs[..|hs| - 1];
      var last := hs[|hs| - 1];
      RecentContentSpec(init, content);
      InitLast(hs);
      FilterAppend(init, [last], p);
      var found := Filter(hs, p);
      var r := RecentContent(hs, content);
      var r0 := RecentContent(init, content);
      var f0 := Filter(init, p);
      var item := Find(content, ItemId, last.contentId);
      if item.Some? {
        assert Filter([last], p) == [last];
        assert found == f0 + [last];
        assert r == r0 + [item.value];
        forall i | 0 <= i < |r| ensures r[i] in content && r[i].id == found[i].contentId {
          if i < |r0| {
            assert r[i] == r0[i] && found[i] == f0[i];
          }
        }
      } else {
        assert Filter([last], p) == [];
        assert found == f0;
        assert r == r0;
      }
    }
  }

  /** A non-empty list is its front followed by its last element. */
  lemma InitLast<T>(s: seq<T>)
    requires s != []
    ensures s == s[..|s| - 1] + [s[|s| - 1]]
  {
  }

  /** An entry no older than every entry of a newest-first list can go in front of it. */
  lemma PrependNewest(h: ViewingHistory, tail: seq<ViewingHistory>)
    requires NewestFirst(tail)
    requires forall j :: 0 <= j < |tail| ==> h.timestamp >= tail[j].timestamp
    ensures NewestFirst([h] + tail)
  {
    var hs := [h] + tail;
    forall i, j | 0 <= i < j < |hs| ensures hs[i].timestamp >= hs[j].timestamp {
      if i == 0 {
        assert hs[j] == tail[j - 1];
      } else {
        assert hs[i] == tail[i - 1] && hs[j] == tail[j - 1];
      }
    }
  }

  /** Keeping some entries of a newest-first list leaves it newest first. */
  lemma {:induction false} FilterKeepsNewestFirst(hs: seq<ViewingHistory>, p: ViewingHistory -> bool)
    requires NewestFirst(hs)
    ensures NewestFirst(Filter(hs, p))
    decreases |hs|
  {
    if hs != [] {
      var rest := hs[1..];
      var tail := Filter(rest, p);
      assert NewestFirst(rest) by {
        forall i, j | 0 <= i < j < |rest| ensures rest[i].timestamp >= rest[j].timestamp {
          assert rest[i] == hs[i + 1] && rest[j] == hs[j + 1];
        }
      }
      FilterKeepsNewestFirst(rest, p);
      forall j | 0 <= j < |tail| ensures hs[0].timestamp >= tail[j].timestamp {
        var k :| 0 <= k < |rest| && rest[k] == tail[j];
        assert hs[k + 1] == tail[j];
      }
      if p(hs[0]) {
        assert Filter(hs, p) == [hs[0]] + tail;
        PrependNewest(hs[0], tail);
      } else {
        assert Filter(hs, p) == tail;
      }
    }
  }

  /**
   * Recently watched holds at most `limit` items, each in the library, and
   * they come from history entries that run newest first.
   */
  lemma RecentlyWatchedSpec(history: seq<ViewingHistory>, content: seq<ContentItem>, limit: nat)
    ensures var top := JsSlice(SortByRecency(history), 0, limit);
      var found := Filter(top, (h: ViewingHistory) => HasContent(content, h));
      var r := RecentContent(top, content);
      && |r| <= limit
      && |r| == |found|
      && (forall i :: 0 <= i < |r| ==> r[i] in content && r[i].id == found[i].contentId)
      && NewestFirst(found)
  {
    var sorted := SortByRecency(history);
    var top := JsSlice(sorted, 0, limit);
    SortByRecencySpec(history);
    RecentContentSpec(top, content);
    var n := if limit < |sorted| then limit else |sorted|;
    assert top == sorted[..n];
    assert NewestFirst(top);
    FilterKeepsNewestFirst(top, (h: ViewingHistory) => HasContent(content, h));
  }

  // ---------------------------------------------------------------------------
  // The web page's row, as written and as intended

  /**
   * The web home page's row as written: `loadRecentlyWatched` runs only from
   * the effect that fires once on mount, and its closure reads `isMobile` as
   * the first render saw it, before the device check has set it. That value
   * is false on every device, so the device plays no part.
   */
  function MountedRecentRow(history: seq<ViewingHistory>, content: seq<ContentItem>, isMobileDevice: bool): seq<ContentItem>
  {
    var firstRenderIsMobile := false;
    RecentContent(JsSlice(SortByRecency(history), 0, RecentLimit(firstRenderIsMobile)), content)
  }

  /** The row the page evidently means: the limit follows the device. */
  function IntendedRecentRow(history: seq<ViewingHistory>, content: seq<ContentItem>, isMobileDevice: bool): seq<ContentItem>
  {
    RecentContent(JsSlice(SortByRecency(history), 0, RecentLimit(isMobileDevice)), content)
  }

  /** When every entry still has its item, the row holds as many items as the limit allows. */
  lemma RecentRowFull(history: seq<ViewingHistory>, content: seq<ContentItem>, limit: nat)
    requires forall j :: 0 <= j < |history| ==> HasContent(content, history[j])
    ensures |RecentContent(JsSlice(SortByRecency(history), 0, limit), content)|
      == if limit < |history| then limit else |history|
  {
    var p := (h: ViewingHistory) => HasContent(content, h);
    var sorted := SortByRecency(history);
    SortByRecencySpec(history);
    assert |sorted| == |history| by {
      assert |multiset(sorted)| == |multiset(history)|;
    }
    var top := JsSlice(sorted, 0, limit);
    forall j | 0 <= j < |top| ensures p(top[j]) {
      assert top[j] == sorted[j];
      assert sorted[j] in multiset(history);
    }
    FilterKeepsAll(top, p);
    RecentContentSpec(top, content);
  }

  /**
   * As written, a phone with five or more watched items that are all still
   * in the library gets five of them, more than the three a phone is meant
   * to get.
   */
  lemma MountedRowOnPhone(history: seq<ViewingHistory>, content: seq<ContentItem>)
    requires |history| >= 5
    requires forall j :: 0 <= j < |history| ==> HasContent(content, history[j])
    ensures |MountedRecentRow(history, content, true)| == 5 > RecentLimit(true)
    ensures MountedRecentRow(history, content, true) != IntendedRecentRow(history, content, true)
  {
    RecentRowFull(history, content, RecentLimit(false));
    RecentRowFull(history, content, RecentLimit(true));
  }

  /**
   * As intended, the row never holds more than the device's limit, three on
   * a phone, and holds exactly that many once enough watched items remain.
   */
  lemma IntendedRowBound(history: seq<ViewingHistory>, content: seq<ContentItem>, isMobileDevice: bool)
    ensures |IntendedRecentRow(history, content, isMobileDevice)| <= RecentLimit(isMobileDevice)
    ensures isMobileDevice ==> |IntendedRecentRow(history, content, isMobileDevice)| <= 3
    ensures (forall j :: 0 <= j < |history| ==> HasContent(content, history[j])) && |history| >= 5 ==>
      |IntendedRecentRow(history, content, isMobileDevice)| == RecentLimit(isMobileDevice)
  {
    RecentlyWatchedSpec(history, content, RecentLimit(isMobileDevice));
    if (forall j :: 0 <= j < |history| ==> HasContent(content, history[j])) {
      RecentRowFull(history, content, RecentLimit(isMobileDevice));
    }
  }
}
