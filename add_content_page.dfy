/**
 * The web add-content page (app/add-content/page.tsx): the episode URL
 * generator behind the series form, the episode records built on submit, and
 * the title/description auto-fill done while the first-episode URL is typed.
 */
module AddContentPage {
  import opened JsText
  import opened FilenameParser
  import opened Catalog
  import opened EpisodeUrls
  import WebStorage

  /** How many times `for (let i = 1; i <= total; i++)` runs: none for `NaN` or a count below 1. */
  function LoopCount(total: Num): nat
  {
    if total.Int? && total.value >= 1 then total.value else 0
  }

  /** Episode i of the series whose first episode is at baseUrl: Mode A when the URL parses, Mode B otherwise. */
  function EpisodeUrl(baseUrl: string, i: nat): string
  {
    match ParseVideoUrl(baseUrl)
    case Some(info) => ModeAUrl(baseUrl, info, i)
    case None => ModeBUrl(baseUrl, i)
  }

  /** `generateEpisodeUrls`: URL i - 1 of the result is episode i, for every i the loop visits. */
  method GenerateEpisodeUrls(baseUrl: string, total: Num) returns (urls: seq<string>)
    ensures |urls| == LoopCount(total)
    ensures forall k :: 0 <= k < |urls| ==> urls[k] == EpisodeUrl(baseUrl, k + 1)
  {
    var parsed := ParseVideoUrl(baseUrl);
    if parsed.Some? {
      urls := ModeAEpisodeUrls(baseUrl, parsed.value, total);
    } else {
      urls := ModeBEpisodeUrls(baseUrl, total);
    }
  }

  /** The loop taken when the base URL parses as info. */
  method ModeAEpisodeUrls(baseUrl: string, info: ParsedVideoInfo, total: Num) returns (urls: seq<string>)
    ensures |urls| == LoopCount(total)
    ensures forall k :: 0 <= k < |urls| ==> urls[k] == ModeAUrl(baseUrl, info, k + 1)
  {
    urls := [];
    var i := 1;
    while total.Int? && i <= total.value
      invariant 1 <= i <= LoopCount(total) + 1
      invariant |urls| == i - 1
      invariant forall k :: 0 <= k < |urls| ==> urls[k] == ModeAUrl(baseUrl, info, k + 1)
      decreases LoopCount(total) + 1 - i
    {
      var episodeNumber := "E" + Pad2(i);
      var episodeUrl := ReplaceFirst(baseUrl, info.season + info.episode, info.season + episodeNumber, true);
      assert i == |urls| + 1 && episodeUrl == ModeAUrl(baseUrl, info, i);
      urls := urls + [episodeUrl];
      i := i + 1;
    }
  }

  /** The loop taken when the base URL does not parse. */
  method ModeBEpisodeUrls(baseUrl: string, total: Num) returns (urls: seq<string>)
    ensures |urls| == LoopCount(total)
    ensures forall k :: 0 <= k < |urls| ==> urls[k] == ModeBUrl(baseUrl, k + 1)
  {
    urls := [];
    var i := 1;
    while total.Int? && i <= total.value
      invariant 1 <= i <= LoopCount(total) + 1
      invariant |urls| == i - 1
      invariant forall k :: 0 <= k < |urls| ==> urls[k] == ModeBUrl(baseUrl, k + 1)
      decreases LoopCount(total) + 1 - i
    {
      var episodeUrl := ModeBEpisodeUrl(baseUrl, i);
      urls := urls + [episodeUrl];
      i := i + 1;
    }
  }

  /** One iteration of the fallback loop: the first pattern that matches is replaced everywhere, else the query parameter is appended. */
  method ModeBEpisodeUrl(baseUrl: string, i: nat) returns (episodeUrl: string)
    ensures episodeUrl == ModeBUrl(baseUrl, i)
  {
    episodeUrl := baseUrl;
    var patternFound := false;
    var q := 0;
    while q < |ModeBPatterns|
      invariant 0 <= q <= |ModeBPatterns|
      invariant !patternFound
      invariant forall m :: 0 <= m < q ==> FirstMatch(baseUrl, ModeBPatterns[m], 0).None?
    {
      if FirstMatch(baseUrl, ModeBPatterns[q], 0).Some? {
        FirstPatternIs(baseUrl, q);
        episodeUrl := ReplaceAll(baseUrl, ModeBPatterns[q], "episode" + NatToString(i), 0);
        patternFound := true;
        break;
      }
      q := q + 1;
    }
    if !patternFound {
      var separator := if Contains(baseUrl, "?", false) then "&" else "?";
      episodeUrl := baseUrl + separator + "episode=" + NatToString(i);
    }
  }

  /** The record of episode n: number n, title `Episode n`. */
  function NumberedEpisode(n: nat, url: string): Episode
  {
    Episode(Int(n), "Episode " + NatToString(n), url)
  }

  /** `episodes.map((url, index) => ...)` in `handleSubmit`. */
  function NumberEpisodes(urls: seq<string>): (r: seq<Episode>)
    ensures |r| == |urls|
    ensures forall k :: 0 <= k < |r| ==> r[k] == NumberedEpisode(k + 1, urls[k])
  {
    seq(|urls|, k requires 0 <= k < |urls| => NumberedEpisode(k + 1, urls[k]))
  }

  /** Episodes are numbered 1, 2, ... in list order, and no two share a number or a title. */
  lemma NumberedContiguously(urls: seq<string>, k: nat, m: nat)
    requires k < |urls| && m < |urls|
    ensures NumberEpisodes(urls)[k].number == Int(k + 1)
    ensures k != m ==> NumberEpisodes(urls)[k].title != NumberEpisodes(urls)[m].title
  {
    var r := NumberEpisodes(urls);
    if r[k].title == r[m].title {
      assert NatToString(k + 1) == r[k].title[8..];
      assert NatToString(m + 1) == r[m].title[8..];
      NatToStringInjective(k + 1, m + 1);
    }
  }

  /** The draft the movie form submits. */
  function MovieDraft(title: string, description: string, movieUrl: string): Draft
  {
    Draft(title, Some(description), Movie, Some(movieUrl), None, None, None, None, None)
  }

  /** The URLs `generateEpisodeUrls` pushes for episodes 1 to n, in order. */
  function SeriesUrls(baseUrl: string, n: nat): seq<string>
  {
    if n == 0 then [] else SeriesUrls(baseUrl, n - 1) + [EpisodeUrl(baseUrl, n)]
  }

  /** There are n URLs, and the one at index k is episode k + 1's. */
  lemma {:induction false} SeriesUrlsSpec(baseUrl: string, n: nat)
    ensures |SeriesUrls(baseUrl, n)| == n
    ensures forall k :: 0 <= k < n ==> SeriesUrls(baseUrl, n)[k] == EpisodeUrl(baseUrl, k + 1)
  {
    if n > 0 {
      var prefix := SeriesUrls(baseUrl, n - 1);
      var last := EpisodeUrl(baseUrl, n);
      SeriesUrlsSpec(baseUrl, n - 1);
      assert SeriesUrls(baseUrl, n) == prefix + [last];
      forall k | 0 <= k < n
        ensures SeriesUrls(baseUrl, n)[k] == EpisodeUrl(baseUrl, k + 1)
      {
        if k == n - 1 {
          assert k + 1 == n;
        } else {
          assert SeriesUrls(baseUrl, n)[k] == prefix[k];
        }
      }
    }
  }

  /** A list of n URLs with episode k + 1's at each index k is the generated list. */
  lemma SeriesUrlsOf(urls: seq<string>, baseUrl: string, n: nat)
    requires |urls| == n
    requires forall k :: 0 <= k < n ==> urls[k] == EpisodeUrl(baseUrl, k + 1)
    ensures urls == SeriesUrls(baseUrl, n)
  {
    SeriesUrlsSpec(baseUrl, n);
  }

  /** The draft the series form submits, given the generated URLs. */
  function SeriesDraft(title: string, description: string, urls: seq<string>): Draft
  {
    Draft(title, Some(description), Series, None, Some(NumberEpisodes(urls)), None, None, None, None)
  }

  /**
   * `handleSubmit`: a movie is stored with its URL; a series with one episode
   * per generated URL, after the store's auto-fill. What the stored series
   * item holds is spelled out by `SubmittedSeriesSpec`.
   */
  method HandleSubmit(store: WebStorage.StorageService, kind: Kind, title: string, description: string,
                      movieUrl: string, seriesUrl: string, totalEpisodes: string, id: string, now: int)
    returns (item: ContentItem)
    modifies store
    ensures kind == Movie ==> item == Stamp(MovieDraft(title, description, movieUrl), id, now)
    ensures kind == Series ==>
      item == Stamp(AutoFill(SeriesDraft(title, description, SeriesUrls(seriesUrl, LoopCount(ParseInt(totalEpisodes))))), id, now)
    ensures kind == Series ==>
      && item.kind == Series && item.url == None && item.episodes.Some?
      && |item.episodes.value| == LoopCount(ParseInt(totalEpisodes))
      && forall k :: 0 <= k < |item.episodes.value| ==>
           item.episodes.value[k] == NumberedEpisode(k + 1, EpisodeUrl(seriesUrl, k + 1))
    ensures store.content == old(store.content) + [item]
    ensures unchanged(store`history, store`bookmarks, store`ratings)
  {
    if kind == Movie {
      item := store.AddContent(MovieDraft(title, description, movieUrl), id, now);
    } else {
      var urls := GenerateEpisodeUrls(seriesUrl, ParseInt(totalEpisodes));
      SeriesUrlsOf(urls, seriesUrl, LoopCount(ParseInt(totalEpisodes)));
      item := store.AddContent(SeriesDraft(title, description, urls), id, now);
      SubmittedSeriesSpec(title, description, urls, id, now);
    }
  }

  /**
   * The series item `handleSubmit` stores: the store's id and time, no URL of
   * its own, one numbered episode per generated URL, and the typed title and
   * description, except that when the first episode's file name parses a
   * blank title takes the series name and an empty description the parsed
   * summary. A count that does not parse gives a series without episodes.
   */
  lemma SubmittedSeriesSpec(title: string, description: string, urls: seq<string>, id: string, now: int)
    ensures var item := Stamp(AutoFill(SeriesDraft(title, description, urls)), id, now);
      && item.id == id && item.createdAt == now
      && item.kind == Series && item.url == None && item.episodes == Some(NumberEpisodes(urls))
      && (urls == [] || ParseVideoUrl(urls[0]).None? ==>
            item.title == title && item.description == Some(description))
      && (urls != [] && ParseVideoUrl(urls[0]).Some? ==>
            var info := ParseVideoUrl(urls[0]).value;
            && item.title == (if IsBlank(title) then info.seriesName else title)
            && item.description == Some(if description == "" then Describe(info) else description))
  {
    var d := SeriesDraft(title, description, urls);
    if urls != [] {
      assert d.episodes.value[0].url == urls[0];
    }
  }

  /**
   * The form's title and description after the first-episode URL changes to
   * one that parses as info: an empty field takes the parsed value.
   */
  function FormFill(title: string, description: string, info: Option<ParsedVideoInfo>): (string, string)
  {
    match info
    case None => (title, description)
    case Some(p) => (if title == "" then p.seriesName else title, if description == "" then Describe(p) else description)
  }

  /** Filling the form twice from the same URL changes nothing more, and the description ends up non-empty. */
  lemma FormFillIdempotent(title: string, description: string, info: Option<ParsedVideoInfo>)
    ensures var r := FormFill(title, description, info); FormFill(r.0, r.1, info) == r
    ensures info.Some? ==> FormFill(title, description, info).1 != ""
  {
  }

  /**
   * A form the URL filled with a non-blank series name reaches the store with
   * a title and a description the store's own auto-fill keeps.
   */
  lemma FormFillSettlesDraft(title: string, description: string, info: ParsedVideoInfo, urls: seq<string>)
    requires !IsBlank(info.seriesName)
    ensures var r := FormFill(title, description, Some(info));
      var d := SeriesDraft(r.0, r.1, urls);
      (title == "" || !IsBlank(title) ==> AutoFill(d) == d)
  {
    var r := FormFill(title, description, Some(info));
    var d := SeriesDraft(r.0, r.1, urls);
    if title == "" || !IsBlank(title) {
      assert !IsBlank(d.title) && d.description == Some(r.1) && r.1 != "";
      AutoFillKeepsFilled(d);
    }
  }

  /** The series form's fields that the URL field's change handler reads and writes. */
  datatype SeriesForm = SeriesForm(
    title: string,
    description: string,
    seriesUrl: string,
    parsedInfo: Option<ParsedVideoInfo>,
    autoParseEnabled: bool)

  /** The form's state on first render. */
  function InitialSeriesForm(): SeriesForm
  {
    SeriesForm("", "", "", None, true)
  }

  /**
   * The first-episode URL's `onChange`: the URL is always stored; with
   * auto-parse on and a non-empty value, the value is parsed, the parse kept,
   * and the empty title and description filled from it.
   */
  function OnSeriesUrlChange(form: SeriesForm, value: string): SeriesForm
  {
    if form.autoParseEnabled && value != "" then
      var parsed := ParseVideoUrl(value);
      var filled := FormFill(form.title, form.description, parsed);
      form.(seriesUrl := value, parsedInfo := parsed, title := filled.0, description := filled.1)
    else
      form.(seriesUrl := value)
  }

  /**
   * The handler never overwrites what the user typed, fills an empty title
   * with the parsed series name, and leaves the form alone apart from the
   * URL when auto-parse is off or the value is empty.
   */
  lemma OnSeriesUrlChangeFills(form: SeriesForm, value: string)
    ensures var r := OnSeriesUrlChange(form, value);
      && r.seriesUrl == value && r.autoParseEnabled == form.autoParseEnabled
      && (form.title != "" ==> r.title == form.title)
      && (form.description != "" ==> r.description == form.description)
      && (!form.autoParseEnabled || value == "" ==> r == form.(seriesUrl := value))
      && (form.autoParseEnabled && value != "" ==> r.parsedInfo == ParseVideoUrl(value))
      && (form.autoParseEnabled && value != "" && ParseVideoUrl(value).Some? && form.title == "" ==>
            r.title == ParseVideoUrl(value).value.seriesName)
  {
  }

  /** Re-entering the same URL changes nothing more. */
  lemma OnSeriesUrlChangeSettles(form: SeriesForm, value: string)
    ensures var r := OnSeriesUrlChange(form, value); OnSeriesUrlChange(r, value) == r
  {
    if form.autoParseEnabled && value != "" {
      FormFillIdempotent(form.title, form.description, ParseVideoUrl(value));
    }
  }
}
