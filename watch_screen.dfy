/**
 * The mobile watch screen: which episode of a series is playing, which URL
 * the player gets, and what the screen writes to the device store when the
 * viewer selects an episode, makes progress, bookmarks or rates.
 */

module WatchScreen {
  import opened JsText
  import opened Catalog
  import MobileStorage

  // ---------------------------------------------------------------------------
  // Episodes and URLs

  /** `episodes.find(ep => ep.number === n)`, as an index. */
  function FindEpisode(episodes: seq<Episode>, n: int): (r: Option<nat>)
    ensures r.Some? ==> r.value < |episodes|
  {
    if episodes == [] then None
    else if episodes[0].number == Int(n) then Some(0)
    else match FindEpisode(episodes[1..], n)
      case Some(i) => Some(i + 1)
      case None => None
  }

  /** `FindEpisode` returns the first episode numbered n, and nothing only when no episode is. */
  lemma {:induction false} FindEpisodeSpec(episodes: seq<Episode>, n: int)
    ensures FindEpisode(episodes, n).Some? ==>
      && episodes[FindEpisode(episodes, n).value].number == Int(n)
      && forall j :: 0 <= j < FindEpisode(episodes, n).value ==> episodes[j].number != Int(n)
    ensures FindEpisode(episodes, n).None? <==> forall j :: 0 <= j < |episodes| ==> episodes[j].number != Int(n)
    decreases |episodes|
  {
    if episodes != [] && episodes[0].number != Int(n) {
      FindEpisodeSpec(episodes[1..], n);
      var rest := episodes[1..];
      if FindEpisode(rest, n).None? {
        forall j | 0 <= j < |episodes| ensures episodes[j].number != Int(n) {
          if j > 0 {
            assert episodes[j] == rest[j - 1];
          }
        }
      }
    }
  }

  /** `episodes.find(ep => ep.number === n)?.url || ""`. */
  function EpisodeUrl(episodes: seq<Episode>, n: int): string
  {
    match FindEpisode(episodes, n)
    case Some(i) => episodes[i].url
    case None => ""
  }

  /**
   * The URL is that of the first episode numbered n, or empty when none is;
   * in particular, in a list numbered 1, 2, … every episode's own URL comes back.
   */
  lemma EpisodeUrlSpec(episodes: seq<Episode>, n: int)
    ensures EpisodeUrl(episodes, n) != "" ==>
      exists i :: 0 <= i < |episodes| && episodes[i].number == Int(n) && episodes[i].url == EpisodeUrl(episodes, n)
    ensures (forall j :: 0 <= j < |episodes| ==> episodes[j].number != Int(n)) ==> EpisodeUrl(episodes, n) == ""
    ensures (forall j :: 0 <= j < |episodes| ==> episodes[j].number == Int(j + 1)) && 1 <= n <= |episodes| ==>
      EpisodeUrl(episodes, n) == episodes[n - 1].url
  {
    FindEpisodeSpec(episodes, n);
    if (forall j :: 0 <= j < |episodes| ==> episodes[j].number == Int(j + 1)) && 1 <= n <= |episodes| {
      assert episodes[n - 1].number == Int(n);
      var i := FindEpisode(episodes, n).value;
      assert episodes[i].number == Int(i + 1);
    }
  }

  /** `item.url || ""`. */
  function MovieUrl(item: ContentItem): string
  {
    match item.url
    case Some(u) => u
    case None => ""
  }

  /**
   * The URL the screen settles on for an item: a movie's own URL, or the
   * URL of the current episode of a series with an episode list; None when
   * the screen leaves the URL as it was (a series without a list).
   */
  function ShownUrl(item: ContentItem, currentEpisode: int): Option<string>
  {
    if item.kind == Movie then Some(MovieUrl(item))
    else if item.episodes.Some? then Some(EpisodeUrl(item.episodes.value, currentEpisode))
    else None
  }

  /** `history.currentEpisode || 1`: an absent or zero episode resumes at 1. */
  function ResumeEpisode(h: ViewingHistory): (r: int)
    ensures r != 0
  {
    match h.currentEpisode
    case Some(e) => if e != 0 then e else 1
    case None => 1
  }

  /** `history.currentTime || 0`. */
  function ResumeTime(h: ViewingHistory): int
  {
    match h.currentTime
    case Some(t) => t
    case None => 0
  }

  // ---------------------------------------------------------------------------
  // Episode navigation

  /** `goToNextEpisode`: the next number, when a series has that many episodes. */
  function NextEpisode(item: ContentItem, current: int): int
  {
    if item.kind == Series && item.episodes.Some? && current + 1 <= |item.episodes.value| then current + 1
    else current
  }

  /** `goToPreviousEpisode`: the previous number, when a series is past its first. */
  function PreviousEpisode(item: ContentItem, current: int): int
  {
    if item.kind == Series && current > 1 then current - 1 else current
  }

  /**
   * Navigation moves one step at most, never below 1 from a number of at
   * least 1 and never past the episode count from a number within it, and
   * only for a series.
   */
  lemma NavigationBounds(item: ContentItem, current: int)
    ensures item.kind == Movie ==> NextEpisode(item, current) == current && PreviousEpisode(item, current) == current
    ensures NextEpisode(item, current) == current || NextEpisode(item, current) == current + 1
    ensures PreviousEpisode(item, current) == current || PreviousEpisode(item, current) == current - 1
    ensures current >= 1 ==> PreviousEpisode(item, current) >= 1
    ensures NextEpisode(item, current) != current ==> NextEpisode(item, current) <= |item.episodes.value|
    ensures item.episodes.Some? && current <= |item.episodes.value| ==>
      NextEpisode(item, current) <= |item.episodes.value|
  { }

  /** Inside the list of a series, previous undoes next and next undoes previous. */
  lemma NavigationUndoes(item: ContentItem, current: int)
    requires item.kind == Series && item.episodes.Some?
    ensures 1 <= current < |item.episodes.value| ==> PreviousEpisode(item, NextEpisode(item, current)) == current
    ensures 1 < current <= |item.episodes.value| ==> NextEpisode(item, PreviousEpisode(item, current)) == current
  { }

  // ---------------------------------------------------------------------------
  // What the screen writes

  /** The history record of `handleEpisodeSelect`. */
  function SelectionRecord(item: ContentItem, episode: int, now: int): ViewingHistory
  {
    ViewingHistory(item.id, Some(episode), None, None, now)
  }

  /** The history record of `handleVideoProgress`: the episode only for a series. */
  function ProgressRecord(item: ContentItem, currentEpisode: int, currentTime: int, duration: int, now: int): ViewingHistory
  {
    ViewingHistory(item.id, if item.kind == Series then Some(currentEpisode) else None, Some(currentTime), Some(duration), now)
  }

  /** The bookmark of `toggleBookmark`: the episode only for a series. */
  function BookmarkFor(item: ContentItem, currentEpisode: int, now: int): Bookmark
  {
    Bookmark(item.id, item.title, item.kind, if item.kind == Series then Some(currentEpisode) else None, now)
  }

  /**
   * What the screen saves is what it resumes from: a selected episode, or
   * the episode and position of a series in progress, come back on the next
   * load (an episode 0 reads back as 1); a bookmark carries the episode
   * exactly for a series.
   */
  lemma RecordsResume(item: ContentItem, episode: int, t: int, d: int, now: int)
    ensures SelectionRecord(item, episode, now).contentId == item.id
    ensures ResumeEpisode(SelectionRecord(item, episode, now)) == if episode != 0 then episode else 1
    ensures item.kind == Series ==> ResumeEpisode(ProgressRecord(item, episode, t, d, now)) == if episode != 0 then episode else 1
    ensures ResumeTime(ProgressRecord(item, episode, t, d, now)) == t
    ensures BookmarkFor(item, episode, now).currentEpisode.Some? <==> item.kind == Series
    ensures item.kind == Series ==> BookmarkFor(item, episode, now).currentEpisode == Some(episode)
  { }

  /** `bookmarks.some(b => b.contentId === id)`. */
  predicate HasBookmark(bookmarks: seq<Bookmark>, id: string)
  {
    exists i :: 0 <= i < |bookmarks| && bookmarks[i].contentId == id
  }

  /** `userRating || 0`. */
  function RatingShown(r: Option<int>): int
  {
    match r
    case Some(v) => v
    case None => 0
  }

  // ---------------------------------------------------------------------------
  // The screen

  class WatchScreen {
    const contentId: string
    var content: Option<ContentItem>
    var currentEpisode: int
    var currentVideoUrl: string
    var isBookmarked: bool
    var watchTime: int
    var rating: int
    var showEpisodeList: bool

    /** The player's URL is always the one the item and the current episode call for. */
    ghost predicate Valid()
      reads this
    {
      content.Some? && ShownUrl(content.value, currentEpisode).Some? ==>
        currentVideoUrl == ShownUrl(content.value, currentEpisode).value
    }

    constructor(contentId: string)
      ensures this.contentId == contentId
      ensures content == None && currentEpisode == 1 && currentVideoUrl == ""
      ensures !isBookmarked && watchTime == 0 && rating == 0 && !showEpisodeList
      ensures Valid()
    {
      this.contentId := contentId;
      content := None;
      currentEpisode := 1;
      currentVideoUrl := "";
      isBookmarked := false;
      watchTime := 0;
      rating := 0;
      showEpisodeList := false;
    }

    /** The effect on `[content, currentEpisode]`: a series with a list plays the current episode. */
    method SyncVideoUrl()
      modifies this`currentVideoUrl
      ensures content.Some? && content.value.kind == Series && content.value.episodes.Some? ==>
        currentVideoUrl == EpisodeUrl(content.value.episodes.value, currentEpisode)
      ensures !(content.Some? && content.value.kind == Series && content.value.episodes.Some?) ==>
        currentVideoUrl == old(currentVideoUrl)
    {
      if content.Some? && content.value.kind == Series && content.value.episodes.Some? {
        currentVideoUrl := EpisodeUrl(content.value.episodes.value, currentEpisode);
      }
    }

    /**
     * `loadContent`, followed by the effect: the item is looked up; a series
     * with a history entry resumes its episode and position; a movie plays
     * its own URL; the bookmark flag and the rating are read back. A missing
     * item leaves everything but `content` as it was.
     */
    method LoadContent(store: MobileStorage.StorageService)
      modifies this
      ensures content == Find(store.Content(), ItemId, contentId)
      ensures content.Some? && content.value.kind == Series && Find(store.History(), HistoryKey, contentId).Some? ==>
        && currentEpisode == ResumeEpisode(Find(store.History(), HistoryKey, contentId).value)
        && watchTime == ResumeTime(Find(store.History(), HistoryKey, contentId).value)
      ensures !(content.Some? && content.value.kind == Series && Find(store.History(), HistoryKey, contentId).Some?) ==>
        currentEpisode == old(currentEpisode) && watchTime == old(watchTime)
      ensures content.Some? ==> isBookmarked == HasBookmark(store.Bookmarks(), content.value.id)
      ensures content.Some? ==> rating == RatingShown(StoredRating(store.Ratings(), content.value.id))
      ensures content.None? ==> isBookmarked == old(isBookmarked) && rating == old(rating)
      ensures content.None? ==> currentVideoUrl == old(currentVideoUrl)
      ensures content.Some? && content.value.kind == Series && content.value.episodes.None? ==>
        currentVideoUrl == old(currentVideoUrl)
      ensures showEpisodeList == old(showEpisodeList)
      ensures Valid()
    {
      var item := store.GetContent(contentId);
      content := item;
      ghost var listShown := showEpisodeList;
      if item.Some? {
        var history := store.GetViewingHistory(contentId);
        var bookmarks := store.GetBookmarks();
        var userRating := store.GetUserRating(item.value.id);
        Show(item.value, history, HasBookmark(bookmarks, item.value.id), userRating);
      }
      assert showEpisodeList == listShown;
      SyncVideoUrl();
    }

    /** The state changes of `loadContent` once the item, its history entry, the bookmark flag and the rating are read. */
    method Show(item: ContentItem, history: Option<ViewingHistory>, bookmarked: bool, userRating: Option<int>)
      requires content == Some(item)
      modifies this`currentEpisode, this`watchTime, this`currentVideoUrl, this`isBookmarked, this`rating
      ensures history.Some? && item.kind == Series ==>
        currentEpisode == ResumeEpisode(history.value) && watchTime == ResumeTime(history.value)
      ensures !(history.Some? && item.kind == Series) ==>
        currentEpisode == old(currentEpisode) && watchTime == old(watchTime)
      ensures item.kind == Movie ==> currentVideoUrl == MovieUrl(item)
      ensures item.kind == Series && item.episodes.Some? && |item.episodes.value| > 0 ==>
        currentVideoUrl == EpisodeUrl(item.episodes.value, if history.Some? then ResumeEpisode(history.value) else 1)
      ensures item.kind == Series && !(item.episodes.Some? && |item.episodes.value| > 0) ==>
        currentVideoUrl == old(currentVideoUrl)
      ensures isBookmarked == bookmarked && rating == RatingShown(userRating)
    {
      if history.Some? && item.kind == Series {
        currentEpisode := ResumeEpisode(history.value);
        watchTime := ResumeTime(history.value);
      }
      if item.kind == Movie {
        currentVideoUrl := MovieUrl(item);
      } else if item.episodes.Some? && |item.episodes.value| > 0 {
        var resume := if history.Some? then ResumeEpisode(history.value) else 1;
        currentVideoUrl := EpisodeUrl(item.episodes.value, resume);
      }
      isBookmarked := bookmarked;
      rating := RatingShown(userRating);
    }

    /** `handleEpisodeSelect`: plays the episode and records it in the viewing history. */
    method HandleEpisodeSelect(store: MobileStorage.StorageService, episodeNumber: int, now: int)
      requires Valid()
      modifies this`currentEpisode, this`showEpisodeList, this`currentVideoUrl, store
      ensures currentEpisode == episodeNumber && !showEpisodeList
      ensures content.Some? ==> store.History() == Upsert(old(store.History()), HistoryKey, SelectionRecord(content.value, episodeNumber, now))
      ensures content.Some? ==> unchanged(store`contentSlot, store`bookmarksSlot, store`ratingsSlot)
      ensures content.None? ==> unchanged(store)
      ensures !(content.Some? && content.value.kind == Series && content.value.episodes.Some?) ==>
        currentVideoUrl == old(currentVideoUrl)
      ensures Valid()
    {
      currentEpisode := episodeNumber;
      showEpisodeList := false;
      if content.Some? {
        store.SaveViewingHistory(SelectionRecord(content.value, episodeNumber, now));
      }
      SyncVideoUrl();
    }

    /** `goToNextEpisode`. */
    method GoToNextEpisode(store: MobileStorage.StorageService, now: int)
      requires Valid()
      modifies this`currentEpisode, this`showEpisodeList, this`currentVideoUrl, store
      ensures content.Some? ==> currentEpisode == NextEpisode(content.value, old(currentEpisode))
      ensures content.None? || currentEpisode == old(currentEpisode) ==> unchanged(store)
      ensures content.Some? && currentEpisode != old(currentEpisode) ==>
        store.History() == Upsert(old(store.History()), HistoryKey, SelectionRecord(content.value, currentEpisode, now))
      ensures Valid()
    {
      if content.Some? && content.value.kind == Series && content.value.episodes.Some? {
        var nextEpisode := currentEpisode + 1;
        if nextEpisode <= |content.value.episodes.value| {
          HandleEpisodeSelect(store, nextEpisode, now);
        }
      }
    }

    /** `goToPreviousEpisode`. */
    method GoToPreviousEpisode(store: MobileStorage.StorageService, now: int)
      requires Valid()
      modifies this`currentEpisode, this`showEpisodeList, this`currentVideoUrl, store
      ensures content.Some? ==> currentEpisode == PreviousEpisode(content.value, old(currentEpisode))
      ensures content.None? || currentEpisode == old(currentEpisode) ==> unchanged(store)
      ensures content.Some? && currentEpisode != old(currentEpisode) ==>
        store.History() == Upsert(old(store.History()), HistoryKey, SelectionRecord(content.value, currentEpisode, now))
      ensures Valid()
    {
      if content.Some? && content.value.kind == Series && currentEpisode > 1 {
        HandleEpisodeSelect(store, currentEpisode - 1, now);
      }
    }

    /** `handleVideoProgress`: remembers the position and records it, with the episode for a series. */
    method HandleVideoProgress(store: MobileStorage.StorageService, currentTime: int, duration: int, now: int)
      modifies this`watchTime, store
      ensures watchTime == currentTime
      ensures content.Some? ==>
        store.History() == Upsert(old(store.History()), HistoryKey, ProgressRecord(content.value, currentEpisode, currentTime, duration, now))
      ensures content.None? ==> unchanged(store)
    {
      watchTime := currentTime;
      if content.Some? {
        store.SaveViewingHistory(ProgressRecord(content.value, currentEpisode, currentTime, duration, now));
      }
    }

    /** `toggleBookmark`: removes the item's bookmark when set, otherwise adds one. */
    method ToggleBookmark(store: MobileStorage.StorageService, now: int)
      modifies this`isBookmarked, store
      ensures content.None? ==> isBookmarked == old(isBookmarked) && unchanged(store)
      ensures content.Some? ==> isBookmarked == !old(isBookmarked)
      ensures content.Some? && old(isBookmarked) ==>
        store.Bookmarks() == RemoveKey(old(store.Bookmarks()), BookmarkKey, content.value.id)
      ensures content.Some? && !old(isBookmarked) ==>
        store.Bookmarks() == Upsert(old(store.Bookmarks()), BookmarkKey, BookmarkFor(content.value, currentEpisode, now))
    {
      if content.None? {
        return;
      }
      if isBookmarked {
        store.RemoveBookmark(content.value.id);
        isBookmarked := false;
      } else {
        store.AddBookmark(BookmarkFor(content.value, currentEpisode, now));
        isBookmarked := true;
      }
    }

    /** `handleRating`: saves the rating and shows it. */
    method HandleRating(store: MobileStorage.StorageService, newRating: int, now: int)
      modifies this`rating, store
      ensures content.None? ==> rating == old(rating) && unchanged(store)
      ensures content.Some? ==> rating == newRating
      ensures content.Some? ==>
        store.Ratings() == Upsert(old(store.Ratings()), RatingKey, UserRating(content.value.id, newRating, now))
    {
      if content.None? {
        return;
      }
      store.SaveUserRating(content.value.id, newRating, now);
      rating := newRating;
    }
  }

  // ---------------------------------------------------------------------------
  // Resume label

  /** `formatTime(seconds)`: `"<h>h <m>m"` with whole hours and minutes, or `"<m>m"` under an hour; seconds are dropped. */
  function FormatWatchTime(seconds: int): string
  {
    var hours := seconds / 3600;
    var minutes := JsRem(seconds, 3600) / 60;
    if hours > 0 then IntToString(hours) + "h " + IntToString(minutes) + "m"
    else IntToString(minutes) + "m"
  }

  /**
   * The label names the hours and the minutes of the position: for h hours,
   * m < 60 minutes and s < 60 seconds it reads `"<h>h <m>m"`, or `"<m>m"`
   * with no hours.
   */
  lemma {:induction false} FormatWatchTimeFields(h: nat, m: nat, s: nat)
    requires m < 60 && s < 60
    ensures h > 0 ==> FormatWatchTime(3600 * h + 60 * m + s) == NatToString(h) + "h " + NatToString(m) + "m"
    ensures h == 0 ==> FormatWatchTime(60 * m + s) == NatToString(m) + "m"
  {
    var t := 3600 * h + 60 * m + s;
    DivMod(t, 3600, h, 60 * m + s);
    DivMod(60 * m + s, 60, m, s);
    FormatWatchTimeOf(t, h, m);
  }

  lemma FormatWatchTimeOf(t: int, h: nat, m: nat)
    requires t >= 0 && t / 3600 == h && (t % 3600) / 60 == m
    ensures h > 0 ==> FormatWatchTime(t) == NatToString(h) + "h " + NatToString(m) + "m"
    ensures h == 0 ==> FormatWatchTime(t) == NatToString(m) + "m"
  {
    assert JsRem(t, 3600) == t % 3600;
  }
}
