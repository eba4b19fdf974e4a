/**
 * The web quick-add page (app/quick-add/page.tsx): one URL and an episode
 * count make a whole series. The page parses with its own two-pattern
 * parser, builds the episodes by Mode A, and shows a preview of at most five
 * of them.
 */
module QuickAddPage {
  import opened JsText
  import opened FilenameParser
  import opened Catalog
  import opened EpisodeUrls
  import opened AddContentPage
  import WebStorage

  /** The episodes `generateEpisodes` makes: none when the URL does not parse, else episode i at Mode A URL i. */
  function QuickEpisodes(baseUrl: string, total: Num): seq<Episode>
  {
    match ParseQuickAddUrl(baseUrl)
    case None => []
    case Some(info) => ModeAEpisodeList(baseUrl, info, LoopCount(total))
  }

  /** Episodes 1 to n, episode i at Mode A URL i. */
  function ModeAEpisodeList(baseUrl: string, info: ParsedVideoInfo, n: nat): seq<Episode>
  {
    seq(n, k requires 0 <= k < n => NumberedEpisode(k + 1, ModeAUrl(baseUrl, info, k + 1)))
  }

  /** `generateEpisodes`. */
  method GenerateEpisodes(baseUrl: string, total: Num) returns (episodes: seq<Episode>)
    ensures episodes == QuickEpisodes(baseUrl, total)
  {
    var parsed := ParseQuickAddUrl(baseUrl);
    if parsed.Some? {
      episodes := ModeAEpisodes(baseUrl, parsed.value, total);
    } else {
      episodes := [];
    }
  }

  /** The loop of `generateEpisodes` once the URL has parsed as info. */
  method ModeAEpisodes(baseUrl: string, info: ParsedVideoInfo, total: Num) returns (episodes: seq<Episode>)
    ensures episodes == ModeAEpisodeList(baseUrl, info, LoopCount(total))
  {
    episodes := [];
    var i := 1;
    while total.Int? && i <= total.value
      invariant 1 <= i <= LoopCount(total) + 1
      invariant |episodes| == i - 1
      invariant forall k :: 0 <= k < |episodes| ==> episodes[k] == NumberedEpisode(k + 1, ModeAUrl(baseUrl, info, k + 1))
      decreases LoopCount(total) + 1 - i
    {
      var episodeNumber := "E" + Pad2(i);
      var episodeUrl := ReplaceFirst(baseUrl, info.season + info.episode, info.season + episodeNumber, true);
      episodes := episodes + [Episode(Int(i), "Episode " + NatToString(i), episodeUrl)];
      i := i + 1;
    }
    assert episodes == ModeAEpisodeList(baseUrl, info, LoopCount(total));
  }

  /**
   * What quick-add generates: nothing for a URL its parser rejects; otherwise
   * `total` episodes numbered from 1, each at the URL the add-content page
   * generates for the same episode.
   */
  lemma QuickEpisodesSpec(baseUrl: string, total: Num)
    ensures ParseQuickAddUrl(baseUrl).None? ==> QuickEpisodes(baseUrl, total) == []
    ensures ParseQuickAddUrl(baseUrl).Some? ==>
      && |QuickEpisodes(baseUrl, total)| == LoopCount(total)
      && forall k :: 0 <= k < LoopCount(total) ==>
           QuickEpisodes(baseUrl, total)[k] == NumberedEpisode(k + 1, EpisodeUrl(baseUrl, k + 1))
  {
    if ParseQuickAddUrl(baseUrl).Some? {
      var q := ParseQuickAddUrl(baseUrl).value;
      QuickAddAgreesWithLibrary(baseUrl);
      var l := ParseVideoUrl(baseUrl).value;
      assert l.season == q.season && l.episode == q.episode;
      SameTokenSameEpisodes(baseUrl, q, l, LoopCount(total));
    }
  }

  /** Mode A only reads the season and the episode of the parse. */
  lemma SameTokenSameEpisodes(baseUrl: string, q: ParsedVideoInfo, l: ParsedVideoInfo, n: nat)
    requires q.season == l.season && q.episode == l.episode
    ensures ModeAEpisodeList(baseUrl, q, n) == ModeAEpisodeList(baseUrl, l, n)
    ensures forall k :: 0 <= k < n ==> ModeAEpisodeList(baseUrl, q, n)[k] == NumberedEpisode(k + 1, ModeAUrl(baseUrl, l, k + 1))
  {
  }

  /** A bare `<name>.S01E01.720p.mkv` URL gives no episodes here, whatever the count. */
  lemma BareEpisodeGivesNothing(dir: string, name: string, season: string, episode: string, quality: string, total: Num)
    requires name != [] && AllAny(name) && '.' !in name && '/' !in name
    requires |season| >= 1 && |episode| >= 1 && |quality| >= 1
    requires AllDigits(season) && AllDigits(episode) && AllDigits(quality)
    ensures QuickEpisodes(dir + "/" + BareEpisodeName(name, season, episode, quality), total) == []
  {
    BareEpisodeParses(dir, name, season, episode, quality);
  }

  /** The draft `handleQuickAdd` stores: the parsed series name, the quality line and the generated episodes. */
  function QuickDraft(info: ParsedVideoInfo, episodes: seq<Episode>): Draft
  {
    Draft(info.seriesName, Some(Describe(info)), Series, None, Some(episodes), None, None, None, None)
  }

  /** What the preview shows: the number of `Episode n` rows and, past five, how many more there are. */
  datatype Preview = Preview(rows: nat, more: Option<int>)

  /** The preview block, shown once the URL parsed and the count field is non-empty. */
  function PreviewOf(parsed: bool, totalEpisodes: string): (r: Option<Preview>)
  {
    if !parsed || totalEpisodes == [] then None
    else
      var n := ParseInt(totalEpisodes);
      var rows := if n.Int? && n.value > 0 then (if n.value < 5 then n.value else 5) else 0;
      Some(Preview(rows, if n.Int? && n.value > 5 then Some(n.value - 5) else None))
  }

  /** The preview lists at most five episodes, and together with the "more" count it accounts for every generated episode. */
  lemma PreviewAccountsForEpisodes(totalEpisodes: string)
    requires totalEpisodes != []
    ensures var p := PreviewOf(true, totalEpisodes).value;
      && p.rows <= 5
      && p.rows + (if p.more.Some? then p.more.value else 0) == LoopCount(ParseInt(totalEpisodes))
      && (p.more.Some? <==> LoopCount(ParseInt(totalEpisodes)) > 5)
  {
  }

  /** The page's state: the URL field, the count field and the parse of the URL. */
  class QuickAddForm {
    var url: string
    var totalEpisodes: string
    var parsedInfo: Option<ParsedVideoInfo>

    /** The parse always belongs to the current URL. */
    predicate Valid()
      reads this
    {
      parsedInfo == (if url == "" then None else ParseQuickAddUrl(url))
    }

    constructor()
      ensures Valid() && url == "" && totalEpisodes == "8"
    {
      url := "";
      totalEpisodes := "8";
      parsedInfo := None;
    }

    /** `handleUrlChange`: store the URL and its parse, or clear the parse for an empty URL. */
    method HandleUrlChange(value: string)
      modifies this
      ensures Valid() && url == value && totalEpisodes == old(totalEpisodes)
    {
      url := value;
      if value != "" {
        var parsed := ParseQuickAddUrl(value);
        parsedInfo := parsed;
      } else {
        parsedInfo := None;
      }
    }

    /**
     * `handleQuickAdd`: with an empty URL or no parse nothing is stored;
     * otherwise one series is added with the generated episodes.
     */
    method HandleQuickAdd(store: WebStorage.StorageService, id: string, now: int) returns (added: Option<ContentItem>)
      requires Valid()
      modifies store
      ensures added.None? <==> url == "" || ParseQuickAddUrl(url).None?
      ensures added.None? ==> unchanged(store)
      ensures added.Some? ==>
        && added.value == Stamp(AutoFill(QuickDraft(ParseQuickAddUrl(url).value, QuickEpisodes(url, ParseInt(totalEpisodes)))), id, now)
        && store.content == old(store.content) + [added.value]
        && unchanged(store`history, store`bookmarks, store`ratings)
    {
      if url == "" || parsedInfo.None? {
        return None;
      }
      var episodes := GenerateEpisodes(url, ParseInt(totalEpisodes));
      var description := Describe(parsedInfo.value);
      var item := store.AddContent(Draft(parsedInfo.value.seriesName, Some(description), Series, None, Some(episodes),
        None, None, None, None), id, now);
      added := Some(item);
    }
  }
}
