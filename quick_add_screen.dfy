/**
 * The mobile quick-add screen (src/screens/QuickAddScreen.tsx): a series
 * name, a URL template and a season range become one catalog entry per
 * season, each holding that season's episodes. The template's placeholders
 * `{season}`, `{episode}`, `{season:02d}` and `{episode:02d}` are filled in
 * that order, each at its first occurrence only.
 */
module QuickAddScreen {
  import opened JsText
  import opened Catalog
  import MobileStorage

  /** Why the screen stopped, or how many seasons it added. */
  datatype Outcome = MissingFields | BadRange | Added(seasons: nat)

  /** The URL of one episode: each placeholder replaced at its first occurrence. */
  function ExpandTemplate(baseUrl: string, season: int, episode: nat): string
  {
    var a := ReplaceFirst(baseUrl, "{season}", IntToString(season), false);
    var b := ReplaceFirst(a, "{episode}", NatToString(episode), false);
    var c := ReplaceFirst(b, "{season:02d}", PadStart(IntToString(season), 2, '0'), false);
    ReplaceFirst(c, "{episode:02d}", PadStart(NatToString(episode), 2, '0'), false)
  }

  /** The count the inner loop runs: `perSeason` when positive, otherwise none. */
  function Runs(perSeason: int): nat
  {
    if perSeason > 0 then perSeason else 0
  }

  /** The episodes of one season: numbers 1 to perSeason, each at its expanded URL. */
  function SeasonEpisodes(baseUrl: string, season: int, perSeason: int): seq<Episode>
  {
    seq(Runs(perSeason), k requires 0 <= k < Runs(perSeason) =>
      Episode(Int(k + 1), "Episode " + NatToString(k + 1), ExpandTemplate(baseUrl, season, k + 1)))
  }

  /** The entry added for one season. */
  function SeasonDraft(seriesName: string, baseUrl: string, season: int, perSeason: int): Draft
  {
    Draft(seriesName + " Season " + IntToString(season), Some("Season " + IntToString(season) + " of " + seriesName),
      Series, None, Some(SeasonEpisodes(baseUrl, season, perSeason)), None, None, None, None)
  }

  /** The accumulated `episodes` array after n seasons starting at start. */
  function AllEpisodes(baseUrl: string, start: int, n: nat, perSeason: int): seq<Episode>
  {
    if n == 0 then [] else AllEpisodes(baseUrl, start, n - 1, perSeason) + SeasonEpisodes(baseUrl, start + n - 1, perSeason)
  }

  /** The items stored for the first n seasons, the k-th with id ids(k) and time times(k). */
  function SeasonItems(seriesName: string, baseUrl: string, start: int, n: nat, perSeason: int,
                       ids: nat -> string, times: nat -> int): (r: seq<ContentItem>)
    ensures |r| == n
  {
    if n == 0 then []
    else
      var item := Stamp(SeasonDraft(seriesName, baseUrl, start + n - 1, perSeason), ids(n - 1), times(n - 1));
      SeasonItems(seriesName, baseUrl, start, n - 1, perSeason, ids, times) + [item]
  }

  /** `Number.parseInt(field) || fallback`. */
  function FieldOr(field: string, fallback: int): int
  {
    OrDefault(ParseInt(field), fallback)
  }

  /**
   * `generateEpisodes`. A blank name or template, or a start season after the
   * end season, stops the screen before anything is stored; otherwise one
   * entry per season is appended, in ascending season order.
   */
  method GenerateEpisodes(store: MobileStorage.StorageService, seriesName: string, baseUrl: string,
                          startSeason: string, endSeason: string, episodesPerSeason: string,
                          ids: nat -> string, times: nat -> int) returns (outcome: Outcome)
    modifies store
    ensures IsBlank(seriesName) || IsBlank(baseUrl) ==> outcome == MissingFields
    ensures !IsBlank(seriesName) && !IsBlank(baseUrl) && FieldOr(startSeason, 1) > FieldOr(endSeason, 1) ==> outcome == BadRange
    ensures outcome.Added? <==> !IsBlank(seriesName) && !IsBlank(baseUrl) && FieldOr(startSeason, 1) <= FieldOr(endSeason, 1)
    ensures !outcome.Added? ==> unchanged(store)
    ensures outcome.Added? ==>
      && FieldOr(startSeason, 1) <= FieldOr(endSeason, 1)
      && outcome.seasons == FieldOr(endSeason, 1) - FieldOr(startSeason, 1) + 1
      && store.Content() == old(store.Content()) +
           SeasonItems(seriesName, baseUrl, FieldOr(startSeason, 1), outcome.seasons, FieldOr(episodesPerSeason, 10), ids, times)
      && store.historySlot == old(store.historySlot) && store.bookmarksSlot == old(store.bookmarksSlot) && store.ratingsSlot == old(store.ratingsSlot)
  {
    if IsBlank(seriesName) || IsBlank(baseUrl) {
      return MissingFields;
    }
    var startSeasonNum := FieldOr(startSeason, 1);
    var endSeasonNum := FieldOr(endSeason, 1);
    var episodesNum := FieldOr(episodesPerSeason, 10);
    if startSeasonNum > endSeasonNum {
      return BadRange;
    }
    outcome := Added(endSeasonNum - startSeasonNum + 1);
    AddSeasons(store, seriesName, baseUrl, startSeasonNum, endSeasonNum, episodesNum, ids, times);
  }

  /** The two loops of `generateEpisodes`, once the fields have been read and checked. */
  method AddSeasons(store: MobileStorage.StorageService, seriesName: string, baseUrl: string,
                    startSeasonNum: int, endSeasonNum: int, episodesNum: int,
                    ids: nat -> string, times: nat -> int)
    requires startSeasonNum <= endSeasonNum
    modifies store
    ensures store.Content() == old(store.Content()) +
      SeasonItems(seriesName, baseUrl, startSeasonNum, endSeasonNum - startSeasonNum + 1, episodesNum, ids, times)
    ensures store.historySlot == old(store.historySlot) && store.bookmarksSlot == old(store.bookmarksSlot) && store.ratingsSlot == old(store.ratingsSlot)
  {
    var episodes: seq<Episode> := [];
    var season := startSeasonNum;
    while season <= endSeasonNum
      invariant startSeasonNum <= season <= endSeasonNum + 1
      invariant episodes == AllEpisodes(baseUrl, startSeasonNum, season - startSeasonNum, episodesNum)
      invariant store.Content() == old(store.Content()) +
        SeasonItems(seriesName, baseUrl, startSeasonNum, season - startSeasonNum, episodesNum, ids, times)
      invariant store.historySlot == old(store.historySlot) && store.bookmarksSlot == old(store.bookmarksSlot) && store.ratingsSlot == old(store.ratingsSlot)
    {
      var k: nat := season - startSeasonNum;
      var item;
      episodes, item := AddSeason(store, episodes, seriesName, baseUrl, startSeasonNum, season, episodesNum, ids(k), times(k));
      assert episodes == AllEpisodes(baseUrl, startSeasonNum, k + 1, episodesNum);
      SeasonItemsStep(seriesName, baseUrl, startSeasonNum, season, episodesNum, ids, times);
      AppendAfterConcat(old(store.Content()), SeasonItems(seriesName, baseUrl, startSeasonNum, k, episodesNum, ids, times), item);
      season := season + 1;
      assert season - startSeasonNum == k + 1;
    }
    assert season - startSeasonNum == endSeasonNum - startSeasonNum + 1;
  }

  /** One more season adds that season's stamped entry at the end. */
  lemma SeasonItemsStep(seriesName: string, baseUrl: string, start: int, season: int, perSeason: int,
                        ids: nat -> string, times: nat -> int)
    requires start <= season
    ensures var n := season - start;
      SeasonItems(seriesName, baseUrl, start, n + 1, perSeason, ids, times) ==
        SeasonItems(seriesName, baseUrl, start, n, perSeason, ids, times) + [Stamp(SeasonDraft(seriesName, baseUrl, season, perSeason), ids(n), times(n))]
  {
    assert start + (season - start + 1) - 1 == season;
  }

  /** One turn of the season loop: that season's episodes are appended, sliced out again and stored as the season's entry. */
  method AddSeason(store: MobileStorage.StorageService, episodes: seq<Episode>, seriesName: string, baseUrl: string,
                   startSeasonNum: int, season: int, episodesNum: int, id: string, now: int)
    returns (episodes': seq<Episode>, item: ContentItem)
    requires startSeasonNum <= season
    requires episodes == AllEpisodes(baseUrl, startSeasonNum, season - startSeasonNum, episodesNum)
    modifies store
    ensures episodes' == AllEpisodes(baseUrl, startSeasonNum, season - startSeasonNum + 1, episodesNum)
    ensures item == Stamp(SeasonDraft(seriesName, baseUrl, season, episodesNum), id, now)
    ensures store.Content() == old(store.Content()) + [item]
    ensures store.historySlot == old(store.historySlot) && store.bookmarksSlot == old(store.bookmarksSlot) && store.ratingsSlot == old(store.ratingsSlot)
  {
    var k: nat := season - startSeasonNum;
    episodes' := AppendSeason(episodes, baseUrl, season, episodesNum);
    AllEpisodesStep(baseUrl, startSeasonNum, season, episodesNum);
    SlicedDraftIsSeason(seriesName, baseUrl, startSeasonNum, season, episodesNum);
    var contentItem := Draft(seriesName + " Season " + IntToString(season),
      Some("Season " + IntToString(season) + " of " + seriesName), Series, None,
      Some(JsSlice(episodes', k * episodesNum, (k + 1) * episodesNum)), None, None, None, None);
    item := AddSeasonEntry(store, contentItem, seriesName, baseUrl, season, episodesNum, id, now);
  }

  /** `addContent` of one season's entry, which the store's auto-fill leaves as built. */
  method AddSeasonEntry(store: MobileStorage.StorageService, contentItem: Draft, ghost seriesName: string,
                        ghost baseUrl: string, ghost season: int, ghost perSeason: int, id: string, now: int)
    returns (item: ContentItem)
    requires contentItem == SeasonDraft(seriesName, baseUrl, season, perSeason)
    modifies store
    ensures item == Stamp(contentItem, id, now)
    ensures store.Content() == old(store.Content()) + [item]
    ensures store.historySlot == old(store.historySlot) && store.bookmarksSlot == old(store.bookmarksSlot) && store.ratingsSlot == old(store.ratingsSlot)
  {
    SeasonDraftKept(seriesName, baseUrl, season, perSeason);
    item := store.AddContent(contentItem, id, now);
  }

  /** The entry the loop builds from the accumulated list is the season's entry. */
  lemma SlicedDraftIsSeason(seriesName: string, baseUrl: string, start: int, season: int, perSeason: int)
    requires start <= season
    ensures var n := season - start;
      Draft(seriesName + " Season " + IntToString(season), Some("Season " + IntToString(season) + " of " + seriesName),
        Series, None, Some(JsSlice(AllEpisodes(baseUrl, start, n + 1, perSeason), n * perSeason, (n + 1) * perSeason)),
        None, None, None, None)
      == SeasonDraft(seriesName, baseUrl, season, perSeason)
  {
    SliceIsSeason(baseUrl, start, season, perSeason);
  }

  /** The inner loop: one season's episodes appended to the list built so far. */
  method AppendSeason(episodes: seq<Episode>, baseUrl: string, season: int, episodesNum: int) returns (r: seq<Episode>)
    ensures r == episodes + SeasonEpisodes(baseUrl, season, episodesNum)
  {
    r := episodes;
    var episode := 1;
    while episode <= episodesNum
      invariant 1 <= episode <= Runs(episodesNum) + 1
      invariant r == episodes + SeasonEpisodes(baseUrl, season, episodesNum)[..episode - 1]
    {
      var episodeUrl := ExpandUrl(baseUrl, season, episode);
      var e := Episode(Int(episode), "Episode " + NatToString(episode), episodeUrl);
      ghost var all := SeasonEpisodes(baseUrl, season, episodesNum);
      assert all[episode - 1] == e;
      PrefixGrows(all, episode - 1);
      AppendAfterConcat(episodes, all[..episode - 1], e);
      r := r + [e];
      episode := episode + 1;
    }
    assert SeasonEpisodes(baseUrl, season, episodesNum)[..Runs(episodesNum)] == SeasonEpisodes(baseUrl, season, episodesNum);
  }

  /** The four replacements of one episode's URL. */
  method ExpandUrl(baseUrl: string, season: int, episode: nat) returns (episodeUrl: string)
    ensures episodeUrl == ExpandTemplate(baseUrl, season, episode)
  {
    episodeUrl := ReplaceFirst(baseUrl, "{season}", IntToString(season), false);
    episodeUrl := ReplaceFirst(episodeUrl, "{episode}", NatToString(episode), false);
    episodeUrl := ReplaceFirst(episodeUrl, "{season:02d}", PadStart(IntToString(season), 2, '0'), false);
    episodeUrl := ReplaceFirst(episodeUrl, "{episode:02d}", PadStart(NatToString(episode), 2, '0'), false);
  }

  // ---------------------------------------------------------------------------
  // Properties

  lemma {:induction false} AllEpisodesLength(baseUrl: string, start: int, n: nat, perSeason: int)
    ensures |AllEpisodes(baseUrl, start, n, perSeason)| == n * Runs(perSeason)
  {
    if n > 0 {
      AllEpisodesLength(baseUrl, start, n - 1, perSeason);
      assert (n - 1) * Runs(perSeason) + Runs(perSeason) == n * Runs(perSeason);
    }
  }

  /**
   * After season `season` has been generated, the slice the screen takes of
   * the accumulated list is exactly that season's episodes, whatever the
   * episode count.
   */
  lemma SliceIsSeason(baseUrl: string, start: int, season: int, perSeason: int)
    requires start <= season
    ensures var n := season - start;
      JsSlice(AllEpisodes(baseUrl, start, n + 1, perSeason), n * perSeason, (n + 1) * perSeason)
        == SeasonEpisodes(baseUrl, season, perSeason)
  {
    var n := season - start;
    var before := AllEpisodes(baseUrl, start, n, perSeason);
    var current := SeasonEpisodes(baseUrl, season, perSeason);
    AllEpisodesStep(baseUrl, start, season, perSeason);
    AllEpisodesLength(baseUrl, start, n, perSeason);
    SeasonSliceOf(before, current, n, perSeason);
  }

  /** The list after season `season` is the list before it followed by that season's episodes. */
  lemma AllEpisodesStep(baseUrl: string, start: int, season: int, perSeason: int)
    requires start <= season
    ensures var n := season - start;
      AllEpisodes(baseUrl, start, n + 1, perSeason) == AllEpisodes(baseUrl, start, n, perSeason) + SeasonEpisodes(baseUrl, season, perSeason)
  {
    var n := season - start;
    assert start + (n + 1) - 1 == season;
  }

  /** Slicing a whole season out of the list that ends with it. */
  lemma SeasonSliceOf(before: seq<Episode>, current: seq<Episode>, n: nat, perSeason: int)
    requires |before| == n * Runs(perSeason) && |current| == Runs(perSeason)
    ensures JsSlice(before + current, n * perSeason, (n + 1) * perSeason) == current
  {
    if perSeason > 0 {
      assert (n + 1) * perSeason == n * perSeason + perSeason;
      assert (before + current)[|before|..|before| + |current|] == current;
    } else {
      assert before + current == [];
    }
  }

  /**
   * Every season entry reaches the store as built: its title is not blank and
   * its description is not empty, so the store's auto-fill keeps both.
   */
  lemma SeasonDraftKept(seriesName: string, baseUrl: string, season: int, perSeason: int)
    ensures AutoFill(SeasonDraft(seriesName, baseUrl, season, perSeason)) == SeasonDraft(seriesName, baseUrl, season, perSeason)
  {
    SeasonTitleNotBlank(seriesName, season);
    AutoFillKeepsFilled(SeasonDraft(seriesName, baseUrl, season, perSeason));
  }

  lemma SeasonTitleNotBlank(seriesName: string, season: int)
    ensures !IsBlank(seriesName + " Season " + IntToString(season))
  {
    var title := seriesName + " Season " + IntToString(season);
    assert title[|seriesName| + 1] == 'S';
    NotBlankAt(title, |seriesName| + 1);
  }

  /** The stored entries, one per season in ascending order, with that season's episodes numbered from 1. */
  lemma SeasonItemsSpec(seriesName: string, baseUrl: string, start: int, n: nat, perSeason: int,
                        ids: nat -> string, times: nat -> int, k: nat)
    requires k < n
    ensures var item := SeasonItems(seriesName, baseUrl, start, n, perSeason, ids, times)[k];
      && item.id == ids(k) && item.createdAt == times(k)
      && item.title == seriesName + " Season " + IntToString(start + k)
      && item.description == Some("Season " + IntToString(start + k) + " of " + seriesName)
      && item.kind == Series
      && item.episodes == Some(SeasonEpisodes(baseUrl, start + k, perSeason))
      && |item.episodes.value| == Runs(perSeason)
      && forall e :: 0 <= e < |item.episodes.value| ==> item.episodes.value[e].number == Int(e + 1)
  {
    SeasonItemAt(seriesName, baseUrl, start, n, perSeason, ids, times, k);
    SeasonEpisodesNumbered(baseUrl, start + k, perSeason);
  }

  /** There is one stored entry per season, and entry k is the k-th season's. */
  lemma {:induction false} SeasonItemAt(seriesName: string, baseUrl: string, start: int, n: nat, perSeason: int,
                                        ids: nat -> string, times: nat -> int, k: nat)
    requires k < n
    ensures |SeasonItems(seriesName, baseUrl, start, n, perSeason, ids, times)| == n
    ensures SeasonItems(seriesName, baseUrl, start, n, perSeason, ids, times)[k]
      == Stamp(SeasonDraft(seriesName, baseUrl, start + k, perSeason), ids(k), times(k))
    decreases n
  {
    var prev := SeasonItems(seriesName, baseUrl, start, n - 1, perSeason, ids, times);
    if k < n - 1 {
      SeasonItemAt(seriesName, baseUrl, start, n - 1, perSeason, ids, times, k);
      assert SeasonItems(seriesName, baseUrl, start, n, perSeason, ids, times)[k] == prev[k];
    } else {
      assert k == n - 1 && start + n - 1 == start + k;
    }
  }

  /** A season's episodes are numbered 1 to the per-season count, in order. */
  lemma SeasonEpisodesNumbered(baseUrl: string, season: int, perSeason: int)
    ensures |SeasonEpisodes(baseUrl, season, perSeason)| == Runs(perSeason)
    ensures forall e :: 0 <= e < Runs(perSeason) ==>
      SeasonEpisodes(baseUrl, season, perSeason)[e].number == Int(e + 1)
      && SeasonEpisodes(baseUrl, season, perSeason)[e].title == "Episode " + NatToString(e + 1)
  {
  }

  /** A text without `{` holds no placeholder. */
  lemma NoBraceNoPlaceholder(t: string, pat: string)
    requires '{' !in t && |pat| >= 1 && pat[0] == '{'
    ensures !Contains(t, pat, false)
  {
    forall j: nat
      ensures !MatchesAt(t, j, pat, false)
    {
      if j + |pat| <= |t| {
        assert t[j] in t;
      }
    }
    IndexOfSpec(t, pat, false, 0);
  }

  /** A template without placeholders gives the same URL for every episode. */
  lemma ExpandPlain(t: string, season: int, episode: nat)
    requires '{' !in t
    ensures ExpandTemplate(t, season, episode) == t
  {
    NoBraceNoPlaceholder(t, "{season}");
    NoBraceNoPlaceholder(t, "{episode}");
    NoBraceNoPlaceholder(t, "{season:02d}");
    NoBraceNoPlaceholder(t, "{episode:02d}");
  }

  /** `{episode}` between two texts without braces becomes the plain episode number. */
  lemma ExpandEpisode(a: string, b: string, season: int, episode: nat)
    requires '{' !in a && '{' !in b
    ensures ExpandTemplate(a + "{episode}" + b, season, episode) == a + NatToString(episode) + b
  {
    var t := a + "{episode}" + b;
    forall j: nat | j < |t| && j != |a|
      ensures t[j] != '{'
    {
      if j < |a| {
        assert t[j] in a;
      } else if j < |a| + 9 {
        assert t[j] == "{episode}"[j - |a|];
      } else {
        assert t[j] == b[j - |a| - 9];
      }
    }
    forall j: nat
      ensures !MatchesAt(t, j, "{season}", false)
    {
      if j + 8 <= |t| {
        if j != |a| {
          assert t[j + 0] != "{season}"[0];
        } else {
          assert t[j + 1] != "{season}"[1];
        }
      }
    }
    IndexOfSpec(t, "{season}", false, 0);
    forall j: nat | j < |a|
      ensures !MatchesAt(t, j, "{episode}", false)
    {
      if j + 9 <= |t| {
        assert t[j + 0] != "{episode}"[0];
      }
    }
    assert MatchesAt(t, |a|, "{episode}", false) by {
      assert t[|a|..|a| + 9] == "{episode}";
    }
    IndexOfFirst(t, "{episode}", false, |a|);
    assert t[..|a|] == a && t[|a| + 9..] == b;
    var r := a + NatToString(episode) + b;
    assert '{' !in NatToString(episode) by {
      assert AllDigits(NatToString(episode));
    }
    assert '{' !in r;
    NoBraceNoPlaceholder(r, "{season:02d}");
    NoBraceNoPlaceholder(r, "{episode:02d}");
  }

  /** With `{episode}` between brace-free texts, different episodes get different URLs. */
  lemma ExpandEpisodeDistinct(a: string, b: string, season: int, e1: nat, e2: nat)
    requires '{' !in a && '{' !in b
    ensures ExpandTemplate(a + "{episode}" + b, season, e1) == ExpandTemplate(a + "{episode}" + b, season, e2) ==> e1 == e2
  {
    ExpandEpisode(a, b, season, e1);
    ExpandEpisode(a, b, season, e2);
    if ExpandTemplate(a + "{episode}" + b, season, e1) == ExpandTemplate(a + "{episode}" + b, season, e2) {
      SameMiddle(a, NatToString(e1), NatToString(e2), b);
      NatToStringValue(e1);
      NatToStringValue(e2);
    }
  }

  /** Two texts with the same prefix and suffix agree in the middle. */
  lemma SameMiddle(a: string, x: string, y: string, b: string)
    requires a + x + b == a + y + b
    ensures x == y
  {
    assert |x| == |y|;
    assert x == (a + x + b)[|a|..|a| + |x|];
    assert y == (a + y + b)[|a|..|a| + |y|];
  }
}
