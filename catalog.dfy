/**
 * The catalog records shared by the web store (lib/storage.ts) and the
 * mobile store (src/services/StorageService.ts), and the list operations
 * both stores perform on them: lookup by key, upsert by key, removal of
 * every entry with a key, the spread-merge of a partial update, and the
 * title/description auto-fill done when a series is added.
 */
module Catalog {
  import opened JsText
  import FilenameParser

  datatype Kind = Movie | Series

  datatype Episode = Episode(number: Num, title: string, url: string)

  /** What a caller hands to `addContent`: a content item without id and creation time. */
  datatype Draft = Draft(
    title: string,
    description: Option<string>,
    kind: Kind,
    url: Option<string>,
    episodes: Option<seq<Episode>>,
    thumbnail: Option<string>,
    genre: Option<string>,
    year: Option<Num>,
    duration: Option<string>)

  datatype ContentItem = ContentItem(
    id: string,
    createdAt: int,
    title: string,
    description: Option<string>,
    kind: Kind,
    url: Option<string>,
    episodes: Option<seq<Episode>>,
    thumbnail: Option<string>,
    genre: Option<string>,
    year: Option<Num>,
    duration: Option<string>)

  /**
   * A `Partial<ContentItem>`: None for a key the update does not carry; for
   * an optional field, Some(None) for a key carried with value `undefined`.
   */
  datatype ContentUpdate = ContentUpdate(
    id: Option<string>,
    createdAt: Option<int>,
    title: Option<string>,
    description: Option<Option<string>>,
    kind: Option<Kind>,
    url: Option<Option<string>>,
    episodes: Option<Option<seq<Episode>>>,
    thumbnail: Option<Option<string>>,
    genre: Option<Option<string>>,
    year: Option<Option<Num>>,
    duration: Option<Option<string>>)

  datatype ViewingHistory = ViewingHistory(
    contentId: string,
    currentEpisode: Option<int>,
    currentTime: Option<int>,
    duration: Option<int>,
    timestamp: int)

  datatype Bookmark = Bookmark(contentId: string, title: string, kind: Kind, currentEpisode: Option<int>, timestamp: int)

  datatype UserRating = UserRating(contentId: string, rating: int, timestamp: int)

  /** The four collections, as `exportData` returns them and `importData` takes them. */
  datatype Snapshot = Snapshot(
    content: seq<ContentItem>,
    history: seq<ViewingHistory>,
    bookmarks: seq<Bookmark>,
    ratings: seq<UserRating>)

  function ItemId(c: ContentItem): string { c.id }
  function HistoryKey(h: ViewingHistory): string { h.contentId }
  function BookmarkKey(b: Bookmark): string { b.contentId }
  function RatingKey(r: UserRating): string { r.contentId }

  /** `{ ...draft, id, createdAt }`. */
  function Stamp(d: Draft, id: string, createdAt: int): ContentItem
  {
    ContentItem(id, createdAt, d.title, d.description, d.kind, d.url, d.episodes,
                d.thumbnail, d.genre, d.year, d.duration)
  }

  // ---------------------------------------------------------------------------
  // Keyed lists

  /** `findIndex(x => key(x) === k)`, with None for -1. */
  function FindKey<T>(xs: seq<T>, key: T -> string, k: string): (r: Option<nat>)
    ensures r.Some? ==> r.value < |xs| && key(xs[r.value]) == k
    ensures r.Some? ==> forall j :: 0 <= j < r.value ==> key(xs[j]) != k
    ensures r.None? ==> forall j :: 0 <= j < |xs| ==> key(xs[j]) != k
  {
    if xs == [] then None
    else if key(xs[0]) == k then Some(0)
    else match FindKey(xs[1..], key, k)
      case Some(i) => Some(i + 1)
      case None => None
  }

  /** `find(x => key(x) === k) || null`. */
  function Find<T>(xs: seq<T>, key: T -> string, k: string): (r: Option<T>)
    ensures r.Some? <==> exists j :: 0 <= j < |xs| && key(xs[j]) == k
    ensures r.Some? ==> r.value in xs && key(r.value) == k
  {
    match FindKey(xs, key, k)
    case Some(i) => Some(xs[i])
    case None => None
  }

  /** Replace the first entry with the same key in place, or append. */
  function Upsert<T>(xs: seq<T>, key: T -> string, x: T): seq<T>
  {
    match FindKey(xs, key, key(x))
    case Some(i) => xs[i := x]
    case None => xs + [x]
  }

  /** Keep the entries satisfying p, in order. */
  function Filter<T>(xs: seq<T>, p: T -> bool): (r: seq<T>)
    ensures |r| <= |xs|
    ensures forall i :: 0 <= i < |r| ==> r[i] in xs && p(r[i])
    ensures forall i :: 0 <= i < |xs| && p(xs[i]) ==> xs[i] in r
  {
    if xs == [] then []
    else (if p(xs[0]) then [xs[0]] else []) + Filter(xs[1..], p)
  }

  /** `filter(x => key(x) !== k)`. */
  function RemoveKey<T>(xs: seq<T>, key: T -> string, k: string): seq<T>
  {
    Filter(xs, (y: T) => key(y) != k)
  }

  /**
   * After an upsert the key finds exactly the new entry; every entry that
   * had another key is untouched; the list grows by one exactly when the
   * key was new, and then at the end.
   */
  lemma UpsertSpec<T>(xs: seq<T>, key: T -> string, x: T)
    ensures var r := Upsert(xs, key, x);
      && Find(r, key, key(x)) == Some(x)
      && (forall j :: 0 <= j < |xs| && key(xs[j]) != key(x) ==> r[j] == xs[j])
      && (FindKey(xs, key, key(x)).Some? ==> |r| == |xs|)
      && (FindKey(xs, key, key(x)).None? ==> r == xs + [x])
      && (forall j :: 0 <= j < |xs| ==> key(r[j]) == key(xs[j]))
  {
    var r := Upsert(xs, key, x);
    match FindKey(xs, key, key(x))
    case Some(i) =>
      assert FindKey(r, key, key(x)) == Some(i) by {
        var f := FindKey(r, key, key(x));
        assert r[i] == x;
        assert f.Some? && f.value <= i;
        assert forall j :: 0 <= j < i ==> r[j] == xs[j];
      }
    case None =>
      assert FindKey(r, key, key(x)) == Some(|xs|) by {
        assert forall j :: 0 <= j < |xs| ==> r[j] == xs[j];
        assert r[|xs|] == x;
      }
  }

  /** Filtering distributes over concatenation: the relative order of the kept entries is the input's. */
  lemma {:induction false} FilterAppend<T>(a: seq<T>, b: seq<T>, p: T -> bool)
    ensures Filter(a + b, p) == Filter(a, p) + Filter(b, p)
    decreases |a|
  {
    if a != [] {
      assert (a + b)[1..] == a[1..] + b;
      FilterAppend(a[1..], b, p);
    } else {
      assert a + b == b;
    }
  }

  /** Filtering removes nothing exactly when every entry passes, and then it is the identity. */
  lemma {:induction false} FilterKeepsAll<T>(xs: seq<T>, p: T -> bool)
    ensures |Filter(xs, p)| == |xs| <==> forall j :: 0 <= j < |xs| ==> p(xs[j])
    ensures (forall j :: 0 <= j < |xs| ==> p(xs[j])) ==> Filter(xs, p) == xs
    decreases |xs|
  {
    if xs != [] {
      FilterKeepsAll(xs[1..], p);
      assert forall j :: 1 <= j < |xs| ==> xs[1..][j - 1] == xs[j];
    }
  }

  /**
   * Removing a key leaves no entry with that key, keeps every other entry,
   * and shrinks the list exactly when some entry had the key.
   */
  lemma RemoveKeySpec<T>(xs: seq<T>, key: T -> string, k: string)
    ensures var r := RemoveKey(xs, key, k);
      && (forall i :: 0 <= i < |r| ==> r[i] in xs && key(r[i]) != k)
      && (forall i :: 0 <= i < |xs| && key(xs[i]) != k ==> xs[i] in r)
      && Find(r, key, k).None?
      && (|r| == |xs| <==> FindKey(xs, key, k).None?)
      && (FindKey(xs, key, k).None? ==> r == xs)
  {
    FilterKeepsAll(xs, (y: T) => key(y) != k);
    var r := RemoveKey(xs, key, k);
  }

  // ---------------------------------------------------------------------------
  // Updates

  /** `{ ...c, ...u }`. */
  function Merge(c: ContentItem, u: ContentUpdate): ContentItem
  {
    ContentItem(
      if u.id.Some? then u.id.value else c.id,
      if u.createdAt.Some? then u.createdAt.value else c.createdAt,
      if u.title.Some? then u.title.value else c.title,
      if u.description.Some? then u.description.value else c.description,
      if u.kind.Some? then u.kind.value else c.kind,
      if u.url.Some? then u.url.value else c.url,
      if u.episodes.Some? then u.episodes.value else c.episodes,
      if u.thumbnail.Some? then u.thumbnail.value else c.thumbnail,
      if u.genre.Some? then u.genre.value else c.genre,
      if u.year.Some? then u.year.value else c.year,
      if u.duration.Some? then u.duration.value else c.duration)
  }

  /** The update that carries no key. */
  const NoChange := ContentUpdate(None, None, None, None, None, None, None, None, None, None, None)

  /** Two updates applied one after the other: the later one's keys win. */
  function Then(u: ContentUpdate, v: ContentUpdate): ContentUpdate
  {
    ContentUpdate(
      if v.id.Some? then v.id else u.id,
      if v.createdAt.Some? then v.createdAt else u.createdAt,
      if v.title.Some? then v.title else u.title,
      if v.description.Some? then v.description else u.description,
      if v.kind.Some? then v.kind else u.kind,
      if v.url.Some? then v.url else u.url,
      if v.episodes.Some? then v.episodes else u.episodes,
      if v.thumbnail.Some? then v.thumbnail else u.thumbnail,
      if v.genre.Some? then v.genre else u.genre,
      if v.year.Some? then v.year else u.year,
      if v.duration.Some? then v.duration else u.duration)
  }

  /**
   * Spread-merging is a right action of updates: the empty update changes
   * nothing, applying an update twice is applying it once, and two updates
   * in a row are one combined update.
   */
  lemma MergeLaws(c: ContentItem, u: ContentUpdate, v: ContentUpdate)
    ensures Merge(c, NoChange) == c
    ensures Merge(Merge(c, u), u) == Merge(c, u)
    ensures Merge(Merge(c, u), v) == Merge(c, Then(u, v))
  {
  }

  // ---------------------------------------------------------------------------
  // Auto-fill on add

  /** `${quality} • ${languages.join(", ")} • ${format}`. */
  function Describe(info: FilenameParser.ParsedVideoInfo): (r: string)
    ensures |r| >= |info.quality| + 6
    ensures r[..|info.quality|] == info.quality
    ensures r[|info.quality|..|info.quality| + 3] == " • "
  {
    var sep := " • ";
    assert |sep| == 3;
    var r := info.quality + sep + Join(info.languages, ", ") + sep + info.format;
    assert r == info.quality + sep + (Join(info.languages, ", ") + sep + info.format);
    r
  }

  /** The filename information of a series draft's first episode, when there is one and it parses. */
  function FirstEpisodeInfo(d: Draft): Option<FilenameParser.ParsedVideoInfo>
  {
    if d.kind == Series && d.episodes.Some? && |d.episodes.value| > 0 then
      FilenameParser.ParseVideoUrl(d.episodes.value[0].url)
    else None
  }

  /**
   * The processing `addContent` applies to a draft: for a series whose
   * first episode URL parses, a blank title becomes the series name and a
   * missing or empty description becomes the quality/languages/format line.
   */
  function AutoFill(d: Draft): (r: Draft)
    ensures r == d.(title := r.title, description := r.description)
    ensures FirstEpisodeInfo(d).None? ==> r == d
    ensures FirstEpisodeInfo(d).Some? ==>
      && r.title == (if IsBlank(d.title) then FirstEpisodeInfo(d).value.seriesName else d.title)
      && r.description == (if d.description.None? || d.description.value == "" then Some(Describe(FirstEpisodeInfo(d).value)) else d.description)
  {
    match FirstEpisodeInfo(d)
    case Some(info) =>
      d.(title := if IsBlank(d.title) then info.seriesName else d.title,
         description := if d.description.None? || d.description.value == "" then Some(Describe(info)) else d.description)
    case None => d
  }

  /** Auto-fill is idempotent: a filled draft has a description and its title is settled. */
  lemma AutoFillIdempotent(d: Draft)
    ensures AutoFill(AutoFill(d)) == AutoFill(d)
    ensures FirstEpisodeInfo(d).Some? ==> AutoFill(d).description.Some? && AutoFill(d).description.value != ""
  {
    var r := AutoFill(d);
    assert FirstEpisodeInfo(r) == FirstEpisodeInfo(d);
  }

  /** A draft with a non-blank title and a non-empty description passes auto-fill unchanged. */
  lemma AutoFillKeepsFilled(d: Draft)
    requires !IsBlank(d.title) && d.description.Some? && d.description.value != ""
    ensures AutoFill(d) == d
  {
  }

  /** What `getUserRating` reports for a list of ratings. */
  function StoredRating(ratings: seq<UserRating>, contentId: string): (r: Option<int>)
    ensures r.Some? ==> r.value != 0
    ensures r.Some? <==> exists j :: (0 <= j < |ratings| && ratings[j].contentId == contentId && ratings[j].rating != 0
      && forall i :: 0 <= i < j ==> ratings[i].contentId != contentId)
  {
    var found := Find(ratings, RatingKey, contentId);
    if found.Some? && found.value.rating != 0 then Some(found.value.rating) else None
  }
}
