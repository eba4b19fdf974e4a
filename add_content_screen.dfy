/**
 * The mobile add-content screen (src/screens/AddContentScreen.tsx): the
 * `S<digits>E<digits>` title parser behind the auto-parse button, the form
 * validation, the content item `handleSubmit` builds from the form, and the
 * default title derived from a picked file's name.
 */
module AddContentScreen {
  import opened JsText
  import opened Catalog
  import FilenameParser
  import MobileStorage

  // ---------------------------------------------------------------------------
  // parseSeriesInfo: /S(\d+)E(\d+)/i

  /** What `parseSeriesInfo` returns: the title without the token, and the raw digits. */
  datatype SeriesInfo = SeriesInfo(series: string, season: string, episode: string)

  /**
   * `S<s digits>E<e digits>` occurs at index k (either letter in either
   * case), and the episode digits run as far as they can.
   */
  predicate IsSeasonEpisodeAt(t: string, k: nat, s: nat, e: nat)
  {
    && s >= 1 && e >= 1
    && k + 2 + s + e <= |t|
    && FilenameParser.Letter(t[k], 'S', 's')
    && FilenameParser.DigitsAt(t, k + 1, s)
    && FilenameParser.Letter(t[k + 1 + s], 'E', 'e')
    && FilenameParser.DigitsAt(t, k + 2 + s, e)
    && (k + 2 + s + e < |t| ==> !IsDigit(t[k + 2 + s + e]))
  }

  /**
   * The regex at index k: both `\d+` are greedy, and the season run cannot
   * give back digits since `E` is not one.
   */
  function SeasonEpisodeAt(t: string, k: nat): (r: Option<(nat, nat)>)
    ensures r.Some? ==> IsSeasonEpisodeAt(t, k, r.value.0, r.value.1)
  {
    if k < |t| && FilenameParser.Letter(t[k], 'S', 's') then
      var s := DigitRun(t, k + 1);
      if s > 0 && k + 1 + s < |t| && FilenameParser.Letter(t[k + 1 + s], 'E', 'e') then
        var e := DigitRun(t, k + 2 + s);
        if e > 0 then Some((s, e)) else None
      else None
    else None
  }

  /** The matcher finds every occurrence, with its lengths. */
  lemma SeasonEpisodeAtComplete(t: string, k: nat, s: nat, e: nat)
    requires IsSeasonEpisodeAt(t, k, s, e)
    ensures SeasonEpisodeAt(t, k) == Some((s, e))
  {
    FilenameParser.RunEnds(t, k + 1, s);
    FilenameParser.RunEnds(t, k + 2 + s, e);
  }

  /** The leftmost index from `from` on where the regex matches. */
  function FirstSeasonEpisode(t: string, from: nat): (r: Option<nat>)
    ensures r.Some? ==> from <= r.value < |t| && SeasonEpisodeAt(t, r.value).Some?
    decreases |t| - from
  {
    if from >= |t| then None
    else if SeasonEpisodeAt(t, from).Some? then Some(from)
    else FirstSeasonEpisode(t, from + 1)
  }

  lemma {:induction false} FirstSeasonEpisodeSpec(t: string, from: nat)
    ensures FirstSeasonEpisode(t, from).Some? ==>
      forall j: nat :: from <= j < FirstSeasonEpisode(t, from).value ==> SeasonEpisodeAt(t, j).None?
    ensures FirstSeasonEpisode(t, from).None? ==> forall j: nat :: from <= j ==> SeasonEpisodeAt(t, j).None?
    decreases |t| - from
  {
    if from >= |t| {
      forall j: nat | from <= j ensures SeasonEpisodeAt(t, j).None? {
        assert !(j < |t|);
      }
    } else if SeasonEpisodeAt(t, from).None? {
      FirstSeasonEpisodeSpec(t, from + 1);
      var rest := FirstSeasonEpisode(t, from + 1);
      assert FirstSeasonEpisode(t, from) == rest;
      forall j: nat | from <= j && (rest.None? || j < rest.value)
        ensures SeasonEpisodeAt(t, j).None?
      {
        if j != from {
          assert from + 1 <= j;
        }
      }
    }
  }

  /**
   * `parseSeriesInfo`: the first match gives the season and episode digits
   * as written, and the series name is the title with that match removed,
   * trimmed.
   */
  function ParseSeriesInfo(title: string): Option<SeriesInfo>
  {
    match FirstSeasonEpisode(title, 0)
    case None => None
    case Some(k) =>
      var lengths := SeasonEpisodeAt(title, k).value;
      Some(InfoAt(title, k, lengths.0, lengths.1))
  }

  /** The result for a match at k with s season and e episode digits. */
  function InfoAt(title: string, k: nat, s: nat, e: nat): SeriesInfo
    requires k + 2 + s + e <= |title|
  {
    SeriesInfo(Trim(title[..k] + title[k + 2 + s + e..]), title[k + 1..k + 1 + s], title[k + 2 + s..k + 2 + s + e])
  }

  /** A match at k cuts the title into the text before it, the token and the text after it. */
  lemma InfoAtSpec(title: string, k: nat, s: nat, e: nat)
    requires IsSeasonEpisodeAt(title, k, s, e)
    ensures SeriesInfoAt(title, k, InfoAt(title, k, s, e))
  {
    SplitAround(title, k, s, e);
  }

  /** Any title long enough splits around the five pieces of a match at k. */
  lemma SplitAround(t: string, k: nat, s: nat, e: nat)
    requires k + 2 + s + e <= |t|
    ensures t == t[..k] + [t[k]] + t[k + 1..k + 1 + s] + [t[k + 1 + s]] + t[k + 2 + s..k + 2 + s + e] + t[k + 2 + s + e..]
  {
    assert t == t[..k] + t[k..k + 1] + t[k + 1..k + 1 + s] + t[k + 1 + s..k + 2 + s] + t[k + 2 + s..k + 2 + s + e] + t[k + 2 + s + e..];
  }

  /** The parser returns null exactly when the title holds no `S<digits>E<digits>`. */
  lemma ParseSeriesInfoNoneIff(title: string)
    ensures ParseSeriesInfo(title).None? <==> !exists k, s, e :: IsSeasonEpisodeAt(title, k, s, e)
  {
    FirstSeasonEpisodeSpec(title, 0);
    if ParseSeriesInfo(title).None? {
      forall k: nat, s: nat, e: nat | IsSeasonEpisodeAt(title, k, s, e) ensures false {
        SeasonEpisodeAtComplete(title, k, s, e);
      }
    }
  }

  /**
   * `info` is read off an occurrence at `k`: the title is the text before it,
   * the letter `S`, the season digits, the letter `E`, the episode digits and
   * the text after it, and the series is the text around it, trimmed.
   */
  predicate SeriesInfoAt(title: string, k: nat, info: SeriesInfo)
  {
    && k + 2 + |info.season| + |info.episode| <= |title|
    && IsSeasonEpisodeAt(title, k, |info.season|, |info.episode|)
    && title == title[..k] + [title[k]] + info.season + [title[k + 1 + |info.season|]] + info.episode
                + title[k + 2 + |info.season| + |info.episode|..]
    && info.series == Trim(title[..k] + title[k + 2 + |info.season| + |info.episode|..])
  }

  /** No occurrence starts before `k`. */
  ghost predicate NoSeasonEpisodeBefore(title: string, k: nat)
  {
    forall j: nat, s: nat, e: nat :: j < k ==> !IsSeasonEpisodeAt(title, j, s, e)
  }

  /** The parse is the leftmost occurrence. */
  lemma ParseSeriesInfoSpec(title: string)
    requires ParseSeriesInfo(title).Some?
    ensures exists k: nat :: SeriesInfoAt(title, k, ParseSeriesInfo(title).value) && NoSeasonEpisodeBefore(title, k)
  {
    var k := FirstSeasonEpisode(title, 0).value;
    var lengths := SeasonEpisodeAt(title, k).value;
    assert ParseSeriesInfo(title).value == InfoAt(title, k, lengths.0, lengths.1);
    InfoAtSpec(title, k, lengths.0, lengths.1);
    FirstSeasonEpisodeSpec(title, 0);
    forall j: nat, s, e | j < k && IsSeasonEpisodeAt(title, j, s, e) ensures false {
      SeasonEpisodeAtComplete(title, j, s, e);
    }
    assert NoSeasonEpisodeBefore(title, k);
  }

  /** The season and episode come back as the digit strings written, unpadded. */
  lemma ParsedDigits(title: string)
    requires ParseSeriesInfo(title).Some?
    ensures var info := ParseSeriesInfo(title).value;
      |info.season| >= 1 && AllDigits(info.season) && |info.episode| >= 1 && AllDigits(info.episode)
  {
    var k := FirstSeasonEpisode(title, 0).value;
    var s := SeasonEpisodeAt(title, k).value.0;
    var e := SeasonEpisodeAt(title, k).value.1;
    var info := ParseSeriesInfo(title).value;
    forall i | 0 <= i < |info.season| ensures IsDigit(info.season[i]) { assert info.season[i] == title[k + 1 + i]; }
    forall i | 0 <= i < |info.episode| ensures IsDigit(info.episode[i]) { assert info.episode[i] == title[k + 2 + s + i]; }
  }

  /** A name without the letter S, a space and a token parse back into the name, trimmed, and the two numbers. */
  lemma SeriesTitleParses(name: string, season: string, episode: string)
    requires 'S' !in name && 's' !in name
    requires |season| >= 1 && AllDigits(season) && |episode| >= 1 && AllDigits(episode)
    ensures ParseSeriesInfo(name + " S" + season + "E" + episode) == Some(SeriesInfo(Trim(name + " "), season, episode))
  {
    var t := name + " S" + season + "E" + episode;
    var k := |name| + 1;
    SeriesTitleToken(name, season, episode);
    SeasonEpisodeAtComplete(t, k, |season|, |episode|);
    NoTokenInName(name, t[k..]);
    assert name + " " + t[k..] == t;
    FirstSeasonEpisodeFrom(t, 0, k);
  }

  /** The token after the name and the space is a match whose pieces are the season, the episode and the name. */
  lemma SeriesTitleToken(name: string, season: string, episode: string)
    requires |season| >= 1 && AllDigits(season) && |episode| >= 1 && AllDigits(episode)
    ensures var t := name + " S" + season + "E" + episode;
      && IsSeasonEpisodeAt(t, |name| + 1, |season|, |episode|)
      && InfoAt(t, |name| + 1, |season|, |episode|) == SeriesInfo(Trim(name + " "), season, episode)
  {
    var t := name + " S" + season + "E" + episode;
    var k := |name| + 1;
    var s := |season|;
    var e := |episode|;
    SeriesTitlePieces(name, season, episode);
    FilenameParser.DigitsOfSlice(t, k + 1, season);
    FilenameParser.DigitsOfSlice(t, k + 2 + s, episode);
  }

  /** Where the pieces of the built title sit. */
  lemma SeriesTitlePieces(name: string, season: string, episode: string)
    ensures var t := name + " S" + season + "E" + episode;
      var k := |name| + 1;
      var s := |season|;
      var e := |episode|;
      && |t| == k + 2 + s + e
      && t[k] == 'S' && t[k + 1 + s] == 'E'
      && t[k + 1..k + 1 + s] == season
      && t[k + 2 + s..k + 2 + s + e] == episode
      && t[..k] + t[k + 2 + s + e..] == name + " "
  {
    var t := name + " S" + season + "E" + episode;
    assert t == (name + " ") + ("S" + season) + ("E" + episode);
  }

  /** No match starts inside a name free of the letter S or at the space after it. */
  lemma NoTokenInName(name: string, rest: string)
    requires 'S' !in name && 's' !in name
    ensures forall j: nat :: j < |name| + 1 ==> SeasonEpisodeAt(name + " " + rest, j).None?
  {
    var t := name + " " + rest;
    forall j: nat | j < |name| + 1 ensures SeasonEpisodeAt(t, j).None? {
      if j < |name| {
        assert t[j] == name[j];
        assert name[j] in name;
      }
    }
  }

  /** With no match before k and one at k, the search from `from` stops at k. */
  lemma {:induction false} FirstSeasonEpisodeFrom(t: string, from: nat, k: nat)
    requires from <= k && SeasonEpisodeAt(t, k).Some?
    requires forall j: nat :: from <= j < k ==> SeasonEpisodeAt(t, j).None?
    ensures FirstSeasonEpisode(t, from) == Some(k)
    decreases k - from
  {
    if from < k {
      FirstSeasonEpisodeFrom(t, from + 1, k);
    }
  }

  // ---------------------------------------------------------------------------
  // The form

  /** The screen's `formData`: every field is the text typed into it. */
  datatype AddContentForm = AddContentForm(
    title: string,
    url: string,
    thumbnail: string,
    description: string,
    genre: string,
    year: string,
    duration: string,
    rating: string,
    series: string,
    season: string,
    episode: string)

  function EmptyForm(): AddContentForm
  {
    AddContentForm("", "", "", "", "", "", "", "", "", "", "")
  }

  /** The outcome of `validateForm`, with the alert it raises. */
  datatype Validation = TitleRequired | UrlRequired | FormValid

  /** `validateForm`: the title is checked first, then the URL, both trimmed. */
  function ValidateForm(form: AddContentForm): (r: Validation)
  {
    if IsBlank(form.title) then TitleRequired
    else if IsBlank(form.url) then UrlRequired
    else FormValid
  }

  /** The form passes exactly when both the title and the URL hold a non-blank character, and a blank title is reported first. */
  lemma ValidateFormIff(form: AddContentForm)
    ensures ValidateForm(form) == FormValid <==>
      (exists i :: 0 <= i < |form.title| && !IsWhitespace(form.title[i])) &&
      (exists i :: 0 <= i < |form.url| && !IsWhitespace(form.url[i]))
    ensures ValidateForm(form) == UrlRequired ==> !IsBlank(form.title)
  {
    BlankIffAllWhitespace(form.title);
    BlankIffAllWhitespace(form.url);
  }

  /** `field.trim() || undefined`. */
  function OptionalText(s: string): (r: Option<string>)
    ensures r.Some? ==> r.value != [] && r.value == Trim(s)
    ensures r.None? <==> IsBlank(s)
  {
    if Trim(s) == [] then None else Some(Trim(s))
  }

  /** The one episode of a series: `parseInt(episode)` or 1, titled with the raw field. */
  function FormEpisode(form: AddContentForm): Episode
  {
    Episode(
      if form.episode != "" then ParseInt(form.episode) else Int(1),
      "Episode " + (if form.episode != "" then form.episode else "1"),
      Trim(form.url))
  }

  /** The `contentItem` of `handleSubmit`. */
  function BuildContentItem(form: AddContentForm): Draft
  {
    Draft(
      Trim(form.title),
      OptionalText(form.description),
      if form.series != "" then Series else Movie,
      Some(Trim(form.url)),
      if form.series != "" then Some([FormEpisode(form)]) else None,
      OptionalText(form.thumbnail),
      OptionalText(form.genre),
      if form.year != "" then Some(ParseInt(form.year)) else None,
      OptionalText(form.duration))
  }

  /**
   * A filled series field makes a series with exactly one episode, at the
   * item's own trimmed URL, numbered 1 when the episode field is empty; an
   * empty one makes a movie without episodes; blank optional fields are left
   * out.
   */
  lemma BuildContentItemSpec(form: AddContentForm)
    ensures var d := BuildContentItem(form);
      && (d.kind == Series <==> form.series != "")
      && (d.episodes.Some? <==> form.series != "")
      && (d.episodes.Some? ==> |d.episodes.value| == 1 && Some(d.episodes.value[0].url) == d.url)
      && d.url == Some(Trim(form.url))
      && (form.series != "" && form.episode == "" ==> d.episodes.value[0] == Episode(Int(1), "Episode 1", Trim(form.url)))
      && (d.year.None? <==> form.year == "")
  {
    if form.series != "" && form.episode == "" {
      assert "Episode " + "1" == "Episode 1";
    }
  }

  /** An episode field of digits gives the episode that number. */
  lemma EpisodeNumberOfDigits(form: AddContentForm)
    requires form.series != "" && |form.episode| >= 1 && AllDigits(form.episode)
    ensures BuildContentItem(form).episodes.value[0].number == Int(DigitsValue(form.episode))
  {
    ParseIntOfDigits(form.episode);
  }

  /**
   * A valid form reaches the store with its trimmed title: the title is not
   * blank, so the store's auto-fill never replaces it.
   */
  lemma ValidTitleKept(form: AddContentForm)
    requires ValidateForm(form) == FormValid
    ensures AutoFill(BuildContentItem(form)).title == Trim(form.title)
  {
    TrimTwice(form.title);
  }

  /** Trimming is idempotent, so a title that is not blank stays not blank once trimmed. */
  lemma TrimTwice(s: string)
    ensures Trim(Trim(s)) == Trim(s)
  {
    var t := Trim(s);
    if t != [] {
      assert TrimStart(t) == t;
      assert TrimEnd(t) == t;
    }
  }

  /** The form after `autoParseTitle`: a non-empty title with a token fills the series, season and episode fields. */
  function AutoParsed(form: AddContentForm): AddContentForm
  {
    if form.title == "" then form
    else
      match ParseSeriesInfo(form.title)
      case None => form
      case Some(info) => form.(series := info.series, season := info.season, episode := info.episode)
  }

  /** Auto-parse touches only the series, season and episode fields, and a title without a token is left alone. */
  lemma AutoParsedFields(form: AddContentForm)
    ensures AutoParsed(form).(series := form.series, season := form.season, episode := form.episode) == form
    ensures ParseSeriesInfo(form.title).None? ==> AutoParsed(form) == form
    ensures ParseSeriesInfo(form.title).Some? ==> AutoParsed(form).episode == ParseSeriesInfo(form.title).value.episode
  {
    if ParseSeriesInfo(form.title).Some? {
      assert form.title != "";
    }
  }

  /**
   * After auto-parse fills a non-empty series name, the submitted item is a
   * series whose one episode carries the parsed episode number.
   */
  lemma AutoParsedSubmit(form: AddContentForm, info: SeriesInfo)
    requires ParseSeriesInfo(form.title) == Some(info) && info.series != ""
    ensures |info.episode| >= 1 && AllDigits(info.episode)
    ensures BuildContentItem(AutoParsed(form)).kind == Series
    ensures BuildContentItem(AutoParsed(form)).episodes
      == Some([Episode(Int(DigitsValue(info.episode)), "Episode " + info.episode, Trim(form.url))])
  {
    ParsedDigits(form.title);
    ParseIntOfDigits(info.episode);
    assert form.title != "";
    assert AutoParsed(form) == form.(series := info.series, season := info.season, episode := info.episode);
  }

  // ---------------------------------------------------------------------------
  // The picked file's name

  /** `name.replace(/\.[^/.]+$/, "")`: drops a final `.ext` whose ext holds no `/`. */
  function StripExtension(name: string): (r: string)
    ensures |r| <= |name| && r == name[..|r|]
  {
    var ext := AfterLast(name, '.');
    if |ext| < |name| && ext != [] && '/' !in ext then name[..|name| - |ext| - 1] else name
  }

  /**
   * Only the final extension goes: a base, a dot and an extension free of
   * dots and slashes give back the base, dots and all.
   */
  lemma StripExtensionRoundTrip(base: string, ext: string)
    requires ext != [] && '.' !in ext && '/' !in ext
    ensures StripExtension(base + "." + ext) == base
  {
    AfterLastAppend(base, '.', ext);
    assert base + "." + ext == base + ['.'] + ext;
  }

  /** A name whose text after its last dot is empty or holds a `/` (or that has no dot) is kept whole. */
  lemma StripExtensionKeeps(name: string)
    ensures StripExtension(name) != name ==>
      var ext := AfterLast(name, '.');
      && ext != [] && '/' !in ext && '.' !in ext
      && name == StripExtension(name) + "." + ext
  {
    AfterLastSpec(name, '.');
    var ext := AfterLast(name, '.');
    if |ext| < |name| && ext != [] && '/' !in ext {
      var k := |name| - |ext| - 1;
      assert name == name[..k] + [name[k]] + name[k + 1..];
    }
  }

  /** The title a picked file suggests: its name without the extension, or empty when it has no name. */
  function PickedTitle(name: Option<string>): string
  {
    match name
    case Some(n) => StripExtension(n)
    case None => ""
  }

  // ---------------------------------------------------------------------------
  // The screen

  class AddContentScreen {
    var formData: AddContentForm

    constructor()
      ensures formData == EmptyForm()
    {
      formData := EmptyForm();
    }

    /** `handleInputChange` for the title field. */
    method SetTitle(value: string)
      modifies this
      ensures formData == old(formData).(title := value)
    {
      formData := formData.(title := value);
    }

    /** `handleInputChange` for the URL field. */
    method SetUrl(value: string)
      modifies this
      ensures formData == old(formData).(url := value)
    {
      formData := formData.(url := value);
    }

    /** `pickFile`: the file's URI becomes the URL, and an empty title takes the file's name without its extension. */
    method PickFile(uri: string, name: Option<string>)
      modifies this
      ensures formData == old(formData).(url := uri,
        title := if old(formData).title == "" then PickedTitle(name) else old(formData).title)
    {
      var hadTitle := formData.title != "";
      SetUrl(uri);
      if !hadTitle {
        SetTitle(PickedTitle(name));
      }
    }

    /** `autoParseTitle`. */
    method AutoParseTitle()
      modifies this
      ensures formData == AutoParsed(old(formData))
    {
      if formData.title != "" {
        var seriesInfo := ParseSeriesInfo(formData.title);
        if seriesInfo.Some? {
          formData := formData.(series := seriesInfo.value.series, season := seriesInfo.value.season,
                                episode := seriesInfo.value.episode);
        }
      }
    }

    /**
     * `handleSubmit`: an invalid form writes nothing; a valid one adds the
     * built item at the end of the device store's content list.
     */
    method HandleSubmit(store: MobileStorage.StorageService, id: string, now: int) returns (added: Option<ContentItem>)
      modifies store
      ensures added.None? <==> ValidateForm(formData) != FormValid
      ensures added.None? ==> unchanged(store)
      ensures added.Some? ==>
        && added.value == Stamp(AutoFill(BuildContentItem(formData)), id, now)
        && store.Content() == old(store.Content()) + [added.value]
        && unchanged(store`historySlot, store`bookmarksSlot, store`ratingsSlot)
    {
      if ValidateForm(formData) != FormValid {
        return None;
      }
      var contentItem := BuildContentItem(formData);
      var item := store.AddContent(contentItem, id, now);
      added := Some(item);
    }
  }
}
