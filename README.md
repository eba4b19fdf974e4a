# OTT catalog: a Dafny model of the "add a series" logic

This project models the core of a small streaming-catalog application. The
application has a web front end (Next.js pages) and a React Native front end
(screens and services), and both share the same catalog format. The model
covers:

- **The filename parser `parseVideoUrl`.** It takes the last path segment of a
  video URL and reads it as `<name>.S<season>E<episode>.<quality>p[.<tags>].mkv`.
  - The add-content page and both storage services use three patterns.
  - The quick-add page uses two patterns and also reports `x264`.
  - The lazy `.+?` groups are modelled by an explicit search in backtracking
    order.
  - Lemmas prove that the first split in that order is the one the regex
    reports.
- **The episode-URL generators.**
  - Mode A renumbers the `SxxEyy` token of a URL that parses.
  - Mode B is the fallback for a URL that does not parse. It replaces every
    match of the first of four patterns that matches, or appends
    `?episode=`/`&episode=`.
  - Mode C is the `{season}`/`{episode}` template of the mobile quick-add
    screen. It stores one entry per season.
- **The two catalog stores.**
  - The browser store keeps four lists.
  - The device store keeps four serialised lists, each of which may be
    missing or unreadable.
  - Both are classes whose methods append, upsert by content id, filter out
    entries, and cascade a delete. Each method states its whole new state.
- **The add-content screen.** It covers `parseSeriesInfo`, `validateForm`,
  building the item, and the picked file's default title.
- **The library pages.** They cover the search-and-filter predicate and the
  "recently watched" row: a newest-first sort, truncated, that skips entries
  whose item is gone. The sort keeps the order of equal timestamps by
  construction, as the platform's stable sort does; no lemma states this.
- **The watch screen.** It covers episode lookup, next and previous
  navigation, what is saved to history, bookmarks and ratings, and what is
  read back.
- **The video player.** It covers the `h:mm:ss` label and the ten-second
  skips, clamped at both ends.
- **The web player's pure rules.** These are the MIME type of a source, the
  error-code messages, the download name and the VLC link.
- **The mobile helpers.** These are the browser and gesture rules, the advice
  list, and the intent links for external players.

Identifiers (`generateId`), clock readings (`Date.now()`), the answers of
`canPlayType` and `encodeURIComponent` are parameters. JavaScript's `String`
and `Number` builtins that the core relies on are modelled once, in module
`JsText`:

- `Number.parseInt`, with white space, sign, `0x` and `NaN`;
- `padStart`, `trim`, `indexOf` and `includes`, case-sensitive and ASCII
  case-insensitive;
- `slice`, `join` and first-occurrence `replace`.

Several rules below depend on the fact that a JavaScript regular expression
with the `i` flag and without `u` folds case exactly on ASCII letters.

## Model

| member | source | states |
|---|---|---|
| FilenameParser.TokenAtComplete | app/add-content/page.tsx:93-95 | the hand-written matcher finds every `.S<d>E<d>.<d>p` token that occurs at an index, with its digit groups (greedy `\d+` has one way to match) |
| FilenameParser.TokenAtSound | app/add-content/page.tsx:93-95 | whatever the token matcher returns really is a token at that index |
| FilenameParser.Match1 | app/add-content/page.tsx:93 | a pattern-1 match has digit season and episode, ends in `.mkv` (either case) and has three trailing groups |
| FilenameParser.Match2 | app/add-content/page.tsx:94 | a pattern-2 match has digit season and episode, ends in `.mkv` and has exactly one trailing group |
| FilenameParser.Match3 | app/add-content/page.tsx:95 | a pattern-3 match has digit season and episode, ends in `.mkv` and has no trailing group |
| FilenameParser.Split1First | app/add-content/page.tsx:93 | pattern 1 matches at the first (prefix, name, group) split in the lazy quantifiers' backtracking order, and fails only when no split completes it |
| FilenameParser.Split2And3First | app/add-content/page.tsx:94-95 | patterns 2 and 3 match with the shortest name that completes them, and fail only when no name does |
| FilenameParser.SeparatorsToSpaces | app/add-content/page.tsx:103 | every `.`, `-` and `_` becomes a space and nothing else changes |
| FilenameParser.CollapseSpec | app/add-content/page.tsx:103 | `\s+`→space leaves no two white-space characters in a row, only plain spaces, no new separator, and keeps whether the text starts with white space |
| FilenameParser.CleanSeriesName | app/add-content/page.tsx:103 | the cleaned name has no `.`, `-`, `_`, no white-space run, only plain spaces, and no leading or trailing space |
| FilenameParser.CleanPlainName | app/add-content/page.tsx:103 | a name with no white space and no separator is its own cleaned name |
| FilenameParser.Languages | app/add-content/page.tsx:106-108 | `Hindi` is listed iff the groups contain `hindi` in any case, `English` iff they contain `eng`, in that order |
| FilenameParser.FormatTags | app/quick-add/page.tsx:58-63 | each of `x265`, `x264` (quick-add copy only), `10bit`, `Subtitles` is listed iff its case-insensitive test holds, in that fixed order |
| FilenameParser.BuildInfoSpec | app/add-content/page.tsx:115-122 | season and episode are `S`/`E` plus the captured digits left-padded to two, never truncated and of the same value; languages and format come from the joined trailing groups |
| FilenameParser.BuildInfo | app/add-content/page.tsx:115-122 | the result's series name is the cleaned first group and its quality the captured quality |
| FilenameParser.Pattern1CodecDigits | app/add-content/page.tsx:93 | pattern 1's codec group is only the digits after `.x` |
| FilenameParser.NothingInEmpty | app/add-content/page.tsx:105-113 | with no trailing group (pattern 3) no language and no format is reported |
| FilenameParser.ParsedFromMkv | app/add-content/page.tsx:91-96 | both copies return a result only for a filename ending in `.mkv`, and the season and episode have at least two digits behind `S`/`E` |
| FilenameParser.ParsedFromToken | app/add-content/page.tsx:91-125 | a result of either copy reports an episode token that occurs in the filename: its padded season and episode digits and its quality |
| FilenameParser.Pattern1DropsCodecLetter | app/add-content/page.tsx:93 | pattern 1 captures only the digits after `.x`; when its other trailing groups hold no `x`, neither copy reports `x265`, whatever the codec group says |
| FilenameParser.QuickAddAgreesWithLibrary | app/quick-add/page.tsx:39-79 | the quick-add copy accepts a subset of what the three-pattern copy accepts and agrees with it on every field but the format, which differs only by `x264` |
| FilenameParser.BareEpisodeParses | app/add-content/page.tsx:95 | `<name>.S<s>E<e>.<q>p.mkv` is read by pattern 3, with no languages and no format, and is rejected by the quick-add copy |
| FilenameParser.BareEpisodeMatches | app/add-content/page.tsx:93-95 | in `<name>.S<s>E<e>.<q>p.mkv` patterns 1 and 2 fail and pattern 3 captures the name, the numbers and the quality |
| FilenameParser.TaggedEpisodeMatches | app/add-content/page.tsx:94 | in `<name>.S<s>E<e>.<q>p.<tags>.mkv`, with no `-`, pattern 1 fails and pattern 2 captures the name and the tags |
| FilenameParser.TaggedEpisodeParses | app/quick-add/page.tsx:42-70 | such a URL is read by both copies with the languages and formats its tags name, and only the quick-add copy can add `x264` |
| FilenameParser.FilenameOfPath | app/add-content/page.tsx:91 | the filename is the text after the last `/` |
| EpisodeUrls.Pad2 | app/add-content/page.tsx:55 | `i.toString().padStart(2,"0")` is a digit string of at least two characters whose value is `i` |
| EpisodeUrls.ModeAWithoutToken | app/add-content/page.tsx:56-59 | when the URL does not spell the padded token (e.g. `S1E3`), every Mode A URL is the base URL unchanged |
| EpisodeUrls.ModeAOnBareName | app/add-content/page.tsx:56-59 | on a bare episode URL, Mode A changes only the episode number, to `i` padded to two |
| EpisodeUrls.ModeARenumbers | app/add-content/page.tsx:52-61 | on a bare episode URL with two-digit numbers, URL `i` parses back to the same series with episode `E` + pad2(`i`) |
| EpisodeUrls.MatchLen | app/add-content/page.tsx:66 | a Mode B match ends at the end of a greedy digit run: its last character is a digit and the next is not |
| EpisodeUrls.FirstMatchSpec | app/add-content/page.tsx:70 | `pattern.test` finds the first index where the pattern matches, and none exists when it finds none |
| EpisodeUrls.FirstPatternSpec | app/add-content/page.tsx:69-75 | the patterns are tried in order and the first one that matches is used; none is used only when none matches |
| EpisodeUrls.FirstPatternIs | app/add-content/page.tsx:69-75 | the pattern that matches with none before it matching is the one used |
| EpisodeUrls.ReplaceFirstMatch | app/add-content/page.tsx:71 | with the `g` flag the text before the first match is kept, the match becomes the replacement, and the rest is replaced likewise |
| EpisodeUrls.ModeBAppendsIffNoDigit | app/add-content/page.tsx:77-80 | the `episode=` parameter is appended exactly when the URL holds no digit (the last pattern is `\d+`) |
| EpisodeUrls.ModeBShape | app/add-content/page.tsx:62-84 | every Mode B URL of a base URL is one common prefix, the episode number, then text that does not start with a digit |
| EpisodeUrls.ModeBDistinct | app/add-content/page.tsx:62-84 | different episode numbers give different Mode B URLs |
| EpisodeUrls.NatToStringInjective | app/add-content/page.tsx:71 | `toString` is one-to-one on episode numbers |
| AddContentPage.GenerateEpisodeUrls | app/add-content/page.tsx:46-87 | exactly as many URLs as the loop runs (none for `NaN` or a count below 1), URL `k` being episode `k+1`'s, by Mode A when the base parses and Mode B otherwise |
| AddContentPage.ModeAEpisodeUrls | app/add-content/page.tsx:52-61 | the Mode A loop yields URL `k` = Mode A URL of episode `k+1`, for each turn |
| AddContentPage.ModeBEpisodeUrls | app/add-content/page.tsx:62-84 | the Mode B loop yields URL `k` = Mode B URL of episode `k+1`, for each turn |
| AddContentPage.ModeBEpisodeUrl | app/add-content/page.tsx:64-82 | one fallback turn, with its `patternFound`/`break` loop, gives the Mode B URL |
| AddContentPage.NumberEpisodes | app/add-content/page.tsx:149-153 | one episode per URL, episode `k` numbered `k+1`, titled `Episode k+1`, at URL `k` |
| AddContentPage.NumberedContiguously | app/add-content/page.tsx:149-153 | episodes are numbered 1, 2, … in list order and no two share a title |
| AddContentPage.SeriesUrlsSpec | app/add-content/page.tsx:46-87 | the URLs pushed for `n` episodes are `n`, the one at index `k` being episode `k+1`'s |
| AddContentPage.SeriesUrlsOf | app/add-content/page.tsx:46-87 | any list of that length and contents is the pushed list, so what the loop returns is it |
| AddContentPage.HandleSubmit | app/add-content/page.tsx:131-155 | a movie is stored as the stamped, auto-filled draft with its URL; a series as the stamped, auto-filled draft of the numbered generated URLs, one episode per URL, episode `k+1` at Mode A/B URL `k`; the item is appended to the store and nothing else changes |
| AddContentPage.SubmittedSeriesSpec | app/add-content/page.tsx:143-155 | the stored series item has the given id and time, no URL, one numbered episode per URL, and the typed title and description unless the first episode's URL parses, in which case a blank title becomes the series name and an empty description the quality line |
| AddContentPage.FormFillIdempotent | app/add-content/page.tsx:287-293 | filling the form twice from the same parse changes nothing more, and a parse always leaves a non-empty description |
| AddContentPage.FormFillSettlesDraft | app/add-content/page.tsx:287-293 | a form filled with a non-blank series name reaches the store with a title and description its auto-fill keeps |
| AddContentPage.OnSeriesUrlChangeFills | app/add-content/page.tsx:279-294 | the URL is always stored; typed title and description are never overwritten; an empty title takes the series name; with auto-parse off or an empty value only the URL changes |
| AddContentPage.OnSeriesUrlChangeSettles | app/add-content/page.tsx:279-294 | re-entering the same URL changes nothing more |
| QuickAddPage.GenerateEpisodes | app/quick-add/page.tsx:81-102 | the loop builds exactly the quick-add episode list of the URL and the count |
| QuickAddPage.ModeAEpisodes | app/quick-add/page.tsx:85-98 | the loop yields episodes 1 to the count, each at its Mode A URL |
| QuickAddPage.QuickEpisodesSpec | app/quick-add/page.tsx:81-102 | nothing for a URL the parser rejects; otherwise `total` episodes numbered from 1, titled `Episode i`, each at the URL the add-content page generates for it |
| QuickAddPage.SameTokenSameEpisodes | app/quick-add/page.tsx:87-91 | Mode A reads only the parse's season and episode, so both parser copies give the same URLs |
| QuickAddPage.BareEpisodeGivesNothing | app/quick-add/page.tsx:42-45 | a bare `<name>.S01E01.720p.mkv` URL yields no episodes, whatever the count |
| QuickAddPage.PreviewAccountsForEpisodes | app/quick-add/page.tsx:271-283 | the preview lists at most five rows and, with the "more" count, accounts for every generated episode |
| QuickAddPage.QuickAddForm.constructor | app/quick-add/page.tsx:19-22 | the URL starts empty with no parse, and the count field at `8` |
| QuickAddPage.QuickAddForm.HandleUrlChange | app/quick-add/page.tsx:104-112 | the URL is stored and the kept parse is always that URL's (cleared for an empty URL) |
| QuickAddPage.QuickAddForm.HandleQuickAdd | app/quick-add/page.tsx:114-135 | nothing is stored iff the URL is empty or does not parse; otherwise one series titled with the series name and described `quality • languages • format` is appended |
| QuickAddScreen.GenerateEpisodes | src/screens/QuickAddScreen.tsx:32-99 | a blank name or template is rejected, then a start after the end, both before any write; otherwise `end-start+1` season entries are appended in order, with the `parseInt(...) \|\| default` fallbacks |
| QuickAddScreen.SeasonItems | src/screens/QuickAddScreen.tsx:52-84 | one stored entry per season of the range |
| QuickAddScreen.AddSeasons | src/screens/QuickAddScreen.tsx:52-84 | the season loop appends exactly the season entries from start to end, and nothing else in the store changes |
| QuickAddScreen.AddSeason | src/screens/QuickAddScreen.tsx:53-83 | one turn appends the season's episodes to the running list and stores the season entry built from its slice |
| QuickAddScreen.AddSeasonEntry | src/screens/QuickAddScreen.tsx:83 | the season entry is stored exactly as built |
| QuickAddScreen.AppendSeason | src/screens/QuickAddScreen.tsx:55-71 | the inner loop appends that season's episodes to the running list |
| QuickAddScreen.ExpandUrl | src/screens/QuickAddScreen.tsx:58-63 | the four replacements, in order, each at its first occurrence, give the template URL |
| QuickAddScreen.SliceIsSeason | src/screens/QuickAddScreen.tsx:79 | the slice taken of the accumulated list is exactly the current season's episodes |
| QuickAddScreen.SeasonItemsSpec | src/screens/QuickAddScreen.tsx:73-81 | entry `k` is season `start+k`: title `<name> Season <s>`, description `Season <s> of <name>`, a series whose episodes are numbered from 1 |
| QuickAddScreen.SeasonItemAt | src/screens/QuickAddScreen.tsx:52-84 | one stored entry per season, the `k`-th built for season `start+k` |
| QuickAddScreen.SeasonEpisodesNumbered | src/screens/QuickAddScreen.tsx:65-69 | a season's episodes are numbered 1 to the count, titled `Episode e`, restarting per season |
| QuickAddScreen.SeasonDraftKept | src/screens/QuickAddScreen.tsx:73-83 | the store's auto-fill leaves every season entry as built |
| QuickAddScreen.ExpandPlain | src/screens/QuickAddScreen.tsx:59-63 | a template without placeholders gives the same URL for every episode |
| QuickAddScreen.ExpandEpisode | src/screens/QuickAddScreen.tsx:60 | `{episode}` between brace-free texts becomes the plain episode number |
| QuickAddScreen.ExpandEpisodeDistinct | src/screens/QuickAddScreen.tsx:59-63 | with `{episode}` in the template, different episodes get different URLs |
| Catalog.FindKey | lib/storage.ts:97 | `findIndex` returns the first index with the key, or none when no entry has it |
| Catalog.Find | lib/storage.ts:90-93 | `find` returns an entry with the key iff one exists |
| Catalog.Filter | app/page.tsx:65 | `filter` keeps exactly the entries that pass, and no others |
| Catalog.FilterAppend | app/page.tsx:65 | filtering distributes over concatenation, so kept entries keep their relative order |
| Catalog.FilterKeepsAll | app/page.tsx:65 | filtering removes nothing iff every entry passes, and then it is the identity |
| Catalog.UpsertSpec | lib/storage.ts:122-133 | after an upsert the key finds the new entry, other keys are untouched, and the list grows by one, at the end, exactly when the key was new |
| Catalog.RemoveKeySpec | lib/storage.ts:145-149 | removing a key leaves no entry with it, keeps every other entry, and shrinks the list exactly when some entry had it |
| Catalog.MergeLaws | lib/storage.ts:95-104 | spread-merging an empty update changes nothing, applying one twice is applying it once, and two updates compose |
| Catalog.Describe | lib/storage.ts:67 | the description starts with the quality followed by ` • ` |
| Catalog.AutoFill | lib/storage.ts:58-70 | for a series whose first episode URL parses, a blank title becomes the series name and a missing or empty description becomes the quality line; nothing else changes |
| Catalog.AutoFillIdempotent | lib/storage.ts:58-70 | auto-fill is idempotent and always leaves a non-empty description where it applies |
| Catalog.AutoFillKeepsFilled | lib/storage.ts:63-69 | a draft with a non-blank title and non-empty description passes unchanged |
| Catalog.StoredRating | lib/storage.ts:196-200 | a rating is reported iff the first rating of the content is non-zero; a stored 0 reads as none |
| WebStorage.StorageService.constructor | lib/storage.ts:48-52 | a fresh database reads as four empty lists |
| WebStorage.StorageService.AddContent | lib/storage.ts:55-83 | the auto-filled, stamped draft is appended after the existing items, and nothing else changes |
| WebStorage.StorageService.GetAllContent | lib/storage.ts:85-88 | returns the stored items |
| WebStorage.StorageService.GetContent | lib/storage.ts:90-93 | returns the first item with the id, or none |
| WebStorage.StorageService.UpdateContent | lib/storage.ts:95-104 | none and no write when the id is absent; otherwise only that index changes, to the merge |
| WebStorage.StorageService.DeleteContent | lib/storage.ts:106-119 | false and no write iff no item has the id; otherwise the items, history, bookmark and rating of that id are filtered out |
| WebStorage.StorageService.SaveViewingHistory | lib/storage.ts:122-133 | an in-place upsert by content id; the other lists are unchanged |
| WebStorage.StorageService.GetViewingHistory | lib/storage.ts:135-138 | the first history entry for the content |
| WebStorage.StorageService.GetAllViewingHistory | lib/storage.ts:140-143 | returns the stored history |
| WebStorage.StorageService.DeleteViewingHistory | lib/storage.ts:145-149 | removes every entry for the content and nothing else |
| WebStorage.StorageService.AddBookmark | lib/storage.ts:152-163 | an in-place upsert by content id |
| WebStorage.StorageService.RemoveBookmark | lib/storage.ts:165-169 | removes every bookmark for the content and nothing else |
| WebStorage.StorageService.GetBookmarks | lib/storage.ts:171-174 | returns the stored bookmarks |
| WebStorage.StorageService.SaveUserRating | lib/storage.ts:177-194 | an in-place upsert of the rating with the given time |
| WebStorage.StorageService.GetUserRating | lib/storage.ts:196-200 | the stored rating, with 0 read as none |
| WebStorage.StorageService.GetUserRatings | lib/storage.ts:202-205 | returns the stored ratings |
| WebStorage.StorageService.RemoveUserRating | lib/storage.ts:207-211 | removes every rating for the content and nothing else |
| WebStorage.StorageService.ExportData | lib/storage.ts:261-272 | returns the four lists |
| WebStorage.StorageService.ImportData | lib/storage.ts:274-284 | overwrites all four lists, so importing an export changes nothing |
| WebStorage.StorageService.ClearAllData | lib/storage.ts:286-288 | every list reads as empty afterwards |
| MobileStorage.Items | src/services/StorageService.ts:85-93 | a missing or unreadable key reads as `[]`, a stored list as itself |
| MobileStorage.StorageService.constructor | src/services/StorageService.ts:48-52 | a fresh device store has every key missing |
| MobileStorage.StorageService.AddContent | src/services/StorageService.ts:55-83 | the auto-filled, stamped draft is appended after the existing items, and nothing else changes |
| MobileStorage.StorageService.GetAllContent | src/services/StorageService.ts:85-93 | the stored items, or `[]` for a missing or unreadable key |
| MobileStorage.StorageService.GetContent | src/services/StorageService.ts:95-98 | the first item with the id, or none |
| MobileStorage.StorageService.UpdateContent | src/services/StorageService.ts:100-109 | none and no write when the id is absent; otherwise only that index changes, to the merge |
| MobileStorage.StorageService.DeleteContent | src/services/StorageService.ts:111-124 | false and no write iff no item has the id; otherwise the three-way cascade |
| MobileStorage.StorageService.SaveViewingHistory | src/services/StorageService.ts:127-138 | an in-place upsert by content id |
| MobileStorage.StorageService.GetViewingHistory | src/services/StorageService.ts:140-143 | the first history entry for the content |
| MobileStorage.StorageService.GetAllViewingHistory | src/services/StorageService.ts:145-153 | the stored history, or `[]` |
| MobileStorage.StorageService.DeleteViewingHistory | src/services/StorageService.ts:155-159 | removes every entry for the content and nothing else |
| MobileStorage.StorageService.AddBookmark | src/services/StorageService.ts:162-173 | an in-place upsert by content id |
| MobileStorage.StorageService.RemoveBookmark | src/services/StorageService.ts:175-179 | removes every bookmark for the content and nothing else |
| MobileStorage.StorageService.GetBookmarks | src/services/StorageService.ts:181-189 | the stored bookmarks, or `[]` |
| MobileStorage.StorageService.SaveUserRating | src/services/StorageService.ts:192-209 | an in-place upsert of the rating with the given time |
| MobileStorage.StorageService.GetUserRating | src/services/StorageService.ts:211-215 | the stored rating, with 0 read as none |
| MobileStorage.StorageService.GetUserRatings | src/services/StorageService.ts:217-225 | the stored ratings, or `[]` |
| MobileStorage.StorageService.RemoveUserRating | src/services/StorageService.ts:227-231 | removes every rating for the content and nothing else |
| MobileStorage.StorageService.ExportData | src/services/StorageService.ts:281-292 | returns the four lists as the getters read them |
| MobileStorage.StorageService.ImportData | src/services/StorageService.ts:294-304 | overwrites all four keys with the argument |
| MobileStorage.StorageService.ClearAllData | src/services/StorageService.ts:306-308 | every list reads as empty afterwards |
| AddContentScreen.SeasonEpisodeAt | src/screens/AddContentScreen.tsx:65 | a match at an index is an `S<digits>E<digits>` occurrence with greedy digit runs |
| AddContentScreen.SeasonEpisodeAtComplete | src/screens/AddContentScreen.tsx:65 | the matcher finds every occurrence, with its lengths |
| AddContentScreen.FirstSeasonEpisodeSpec | src/screens/AddContentScreen.tsx:65-66 | the search stops at the leftmost occurrence, and finds none only when none exists |
| AddContentScreen.ParseSeriesInfoNoneIff | src/screens/AddContentScreen.tsx:64-82 | `null` exactly when the title holds no case-insensitive `S<digits>E<digits>` |
| AddContentScreen.ParseSeriesInfoSpec | src/screens/AddContentScreen.tsx:64-82 | the result is read off the leftmost occurrence: the series is the title without it, trimmed |
| AddContentScreen.ParsedDigits | src/screens/AddContentScreen.tsx:70-71 | season and episode are the raw, unpadded digit strings |
| AddContentScreen.SeriesTitleParses | src/screens/AddContentScreen.tsx:64-82 | `<name> S<s>E<e>` parses back to the trimmed name and the two digit strings |
| AddContentScreen.ValidateFormIff | src/screens/AddContentScreen.tsx:96-108 | the form passes iff both title and URL have a non-blank character, and a blank title is reported first |
| AddContentScreen.OptionalText | src/screens/AddContentScreen.tsx:119-123 | `field.trim() \|\| undefined` is none exactly for a blank field, otherwise the non-empty trimmed text |
| AddContentScreen.BuildContentItemSpec | src/screens/AddContentScreen.tsx:116-136 | a series iff the series field is filled, with exactly one episode at the trimmed URL, numbered 1 when the episode field is empty; otherwise a movie with no episodes |
| AddContentScreen.EpisodeNumberOfDigits | src/screens/AddContentScreen.tsx:131 | a digit episode field gives that episode number |
| AddContentScreen.ValidTitleKept | src/screens/AddContentScreen.tsx:110-126 | a valid form reaches the store with its trimmed title, which auto-fill never replaces |
| AddContentScreen.AutoParsedFields | src/screens/AddContentScreen.tsx:84-94 | auto-parse touches only the series, season and episode fields, and leaves a title without a token alone |
| AddContentScreen.AutoParsedSubmit | src/screens/AddContentScreen.tsx:84-136 | after auto-parse fills a series name, the submitted item is a series whose one episode carries the parsed number |
| AddContentScreen.StripExtension | src/screens/AddContentScreen.tsx:56 | the default title is a prefix of the file name |
| AddContentScreen.StripExtensionRoundTrip | src/screens/AddContentScreen.tsx:56 | only the final `.ext` goes: `base.ext` gives back `base`, dots and all |
| AddContentScreen.StripExtensionKeeps | src/screens/AddContentScreen.tsx:56 | whenever something is dropped, it is one `.` and an extension free of `.` and `/` |
| AddContentScreen.AddContentScreen.constructor | src/screens/AddContentScreen.tsx:26-38 | every form field starts empty |
| AddContentScreen.AddContentScreen.SetTitle | src/screens/AddContentScreen.tsx:41-43 | only the title field changes, to the typed value |
| AddContentScreen.AddContentScreen.SetUrl | src/screens/AddContentScreen.tsx:41-43 | only the URL field changes, to the typed value |
| AddContentScreen.AddContentScreen.PickFile | src/screens/AddContentScreen.tsx:45-62 | the URL becomes the file's URI and only an empty title takes the file name without its extension |
| AddContentScreen.AddContentScreen.AutoParseTitle | src/screens/AddContentScreen.tsx:84-94 | the form becomes its auto-parsed version |
| AddContentScreen.AddContentScreen.HandleSubmit | src/screens/AddContentScreen.tsx:110-153 | an invalid form writes nothing; a valid one appends the built item to the device store |
| Library.FilteredContentSpec | app/page.tsx:65-83 | an item is shown iff it is in the library, its lowered title contains the lowered search term, and it passes the selected filter |
| Library.EmptySearchShowsAll | src/screens/HomeScreen.tsx:75-94 | with no search and the "all" filter the whole library is shown, in order |
| Library.FilteredContentInOrder | src/screens/HomeScreen.tsx:75 | the visible list is a subsequence of the library |
| Library.FilterSubsequence | app/page.tsx:65 | any filter keeps the survivors in their order |
| Library.SortByRecencySpec | app/page.tsx:53 | the sort returns the same entries (as a multiset), newest first |
| Library.InsertPermutes | app/page.tsx:53 | one insertion step adds exactly the inserted entry |
| Library.InsertKeepsOrder | app/page.tsx:53 | one insertion step keeps the list newest first |
| Library.LoadRecentlyWatched | src/screens/HomeScreen.tsx:43-59 | the loop yields the items of the newest `limit` entries, in order, skipping entries without an item |
| Library.RecentContentSpec | app/page.tsx:55-62 | the row lists, for exactly the entries that have an item, those items in the entries' order |
| Library.RecentlyWatchedSpec | src/screens/HomeScreen.tsx:46-54 | at most `limit` items, each in the library, from entries that run newest first |
| Library.FilterKeepsNewestFirst | app/page.tsx:55-62 | dropping entries keeps the rest newest first |
| Library.RecentRowFull | app/page.tsx:53-62 | when every entry still has its item, the row holds as many as the limit allows |
| Library.MountedRowOnPhone | app/page.tsx:35-39 | the web page as written gives a phone with five or more watched items five of them, not three |
| Library.IntendedRowBound | app/page.tsx:53 | the row with the device's own limit never passes it (three on a phone) and meets it when enough items remain |
| WatchScreen.FindEpisodeSpec | src/screens/WatchScreen.tsx:48 | `find` returns the first episode with the number, and nothing only when none has it |
| WatchScreen.EpisodeUrlSpec | src/screens/WatchScreen.tsx:85-90 | the series URL is the first matching episode's URL or `""`; in a list numbered 1, 2, … episode `n` plays its own URL |
| WatchScreen.ResumeEpisode | src/screens/WatchScreen.tsx:41 | `currentEpisode \|\| 1` is never 0 |
| WatchScreen.NavigationBounds | src/screens/WatchScreen.tsx:189-202 | next and previous move at most one step, only for a series, never below 1 and never past the episode count |
| WatchScreen.NavigationUndoes | src/screens/WatchScreen.tsx:189-202 | inside the list, previous undoes next and next undoes previous |
| WatchScreen.RecordsResume | src/screens/WatchScreen.tsx:92-153 | what selection and progress save is what the next load resumes from; a bookmark carries the episode exactly for a series |
| WatchScreen.WatchScreen.constructor | src/screens/WatchScreen.tsx:23-30 | no item, episode 1, an empty URL, no bookmark, zero time and rating, the list closed |
| WatchScreen.WatchScreen.Show | src/screens/WatchScreen.tsx:39-66 | a series with history resumes its episode and position, a movie plays its own URL, a series with episodes plays the resumed (or first) episode's URL and one without keeps the URL, and the bookmark flag and rating are shown |
| WatchScreen.WatchScreen.LoadContent | src/screens/WatchScreen.tsx:32-68 | the item is looked up; a series with history resumes its episode and position; the bookmark flag and rating are read back; a missing item, or a series without an episode list, keeps the player's URL |
| WatchScreen.WatchScreen.SyncVideoUrl | src/screens/WatchScreen.tsx:85-90 | a series with a list plays the current episode's URL; otherwise the URL is kept |
| WatchScreen.WatchScreen.HandleEpisodeSelect | src/screens/WatchScreen.tsx:92-103 | the episode is set, the list closes, and the selection is upserted into the history; the URL follows the episode only for a series with an episode list, and is kept otherwise |
| WatchScreen.WatchScreen.GoToNextEpisode | src/screens/WatchScreen.tsx:189-196 | the episode becomes the next one when there is one, and only then is the history written |
| WatchScreen.WatchScreen.GoToPreviousEpisode | src/screens/WatchScreen.tsx:198-202 | the episode becomes the previous one when past the first, and only then is the history written |
| WatchScreen.WatchScreen.HandleVideoProgress | src/screens/WatchScreen.tsx:105-117 | the position is kept and upserted into the history, with the episode for a series |
| WatchScreen.WatchScreen.ToggleBookmark | src/screens/WatchScreen.tsx:119-153 | the flag flips and the bookmark is removed or upserted accordingly |
| WatchScreen.WatchScreen.HandleRating | src/screens/WatchScreen.tsx:155-173 | the rating is shown and upserted into the store |
| WatchScreen.FormatWatchTimeFields | src/screens/WatchScreen.tsx:204-211 | `<h>h <m>m` from one hour on, `<m>m` below; seconds are dropped |
| WatchScreen.FormatWatchTimeOf | src/screens/WatchScreen.tsx:204-211 | the label names the whole hours and minutes of any non-negative time |
| VideoPlayer.SkipBounds | src/components/VideoPlayer.tsx:200-210 | a backward skip never goes below 0; a forward skip never passes the duration, which counts as 0 when absent; away from the ends both move ten seconds |
| VideoPlayer.SkipBackUndoesForward | src/components/VideoPlayer.tsx:200-210 | away from the end, skipping back after skipping forward returns to the same position |
| VideoPlayer.VideoPlayer.constructor | src/components/VideoPlayer.tsx:29-30 | the player starts paused, with no position or duration known and the controls shown |
| VideoPlayer.VideoPlayer.SkipForward | src/components/VideoPlayer.tsx:200-204 | the position becomes the forward target |
| VideoPlayer.VideoPlayer.SkipBackward | src/components/VideoPlayer.tsx:206-210 | the position becomes the backward target |
| VideoPlayer.VideoPlayer.TogglePlayPause | src/components/VideoPlayer.tsx:68-74 | a playing video pauses and a paused one plays |
| VideoPlayer.VideoPlayer.ToggleControls | src/components/VideoPlayer.tsx:61-66 | the controls' visibility flips |
| VideoPlayer.ClockOfSpec | src/components/VideoPlayer.tsx:212-216 | minutes and seconds lie in 0..59 and with the hours make up exactly the whole seconds |
| VideoPlayer.Pad2Spec | src/components/VideoPlayer.tsx:219-221 | a padded field is two digits that read back as its value |
| VideoPlayer.FormatTimeFields | src/components/VideoPlayer.tsx:212-222 | `h:mm:ss` from one hour on, `m:ss` below, whatever the milliseconds |
| VideoPlayer.FormatTimeReadsBack | src/components/VideoPlayer.tsx:212-222 | every padded field of a label reads back as the field's value |
| UniversalVideoPlayer.VideoTypeOfExtension | components/universal-video-player.tsx:206-219 | the extension after the last dot picks the type in any letter case |
| UniversalVideoPlayer.VideoTypeDefault | components/universal-video-player.tsx:207-218 | the type differs from MP4 exactly for `webm`, `mkv`, `m3u8` after the last dot |
| UniversalVideoPlayer.QueryHidesExtension | components/universal-video-player.tsx:207 | a query string after the extension gives MP4 |
| UniversalVideoPlayer.MediaErrorMessage | components/universal-video-player.tsx:156-168 | codes 1 to 4 have their own messages, the same on every device, and each message gives its code back |
| UniversalVideoPlayer.FallbackErrorMessage | components/universal-video-player.tsx:169-171 | any other or missing code gets a message naming no media error |
| UniversalVideoPlayer.FallbackPerDevice | components/universal-video-player.tsx:169-171 | the fallback is one message per value of the `isMobile` state, different for the two values; this is the intended per-device text (see Findings) |
| UniversalVideoPlayer.MountedFallbackOnPhone | components/universal-video-player.tsx:151-173 | the handler registered on first load reads `isMobile` as false, so a phone gets the desktop fallback text while the media error messages are unaffected |
| UniversalVideoPlayer.DownloadStemSpec | components/universal-video-player.tsx:277 | the stem has one character per UTF-16 code unit of the title, only digits, lower-case letters and `_` |
| UniversalVideoPlayer.DownloadStemInPlane | components/universal-video-player.tsx:277 | for a title in the Basic Multilingual Plane each character becomes its lowered letter or digit, or `_` |
| UniversalVideoPlayer.DownloadStemOfAstral | components/universal-video-player.tsx:277 | a character outside the Basic Multilingual Plane becomes two `_` |
| UniversalVideoPlayer.DownloadStemAppend | components/universal-video-player.tsx:277 | each character is replaced on its own |
| UniversalVideoPlayer.DownloadStemIdempotent | components/universal-video-player.tsx:277 | a stem is its own stem, and titles differing only in letter case share one |
| UniversalVideoPlayer.DownloadNameEndsMp4 | components/universal-video-player.tsx:277 | the download name is the stem followed by `.mp4` |
| UniversalVideoPlayer.VlcLinkMatchesAppIntents | components/universal-video-player.tsx:298-315 | the VLC link is the one the mobile helpers offer, and on Android carries the source without its scheme |
| MobileVideoUtils.BrowserPrecedence | lib/mobile-video-utils.ts:24-28 | Chrome, then Firefox, then Safari without Chrome, then Edge, each as an iff |
| MobileVideoUtils.CapabilitiesConsistent | lib/mobile-video-utils.ts:19-43 | iOS and Android agents are mobile; a gesture is required exactly on mobile; autoplay is its negation |
| MobileVideoUtils.GetMobileVideoRecommendations | lib/mobile-video-utils.ts:59-84 | empty off mobile; on mobile the app items first, the download item last, the iOS pair before the Android pair, the MKV advice iff MKV cannot play, of length 3 + 2·iOS + 2·Android + no-MKV |
| MobileVideoUtils.StripScheme | lib/mobile-video-utils.ts:92 | the result is a suffix of the URL |
| MobileVideoUtils.StripSchemeSpec | lib/mobile-video-utils.ts:92 | exactly one leading `http://` or `https://` is removed, and a URL without one is kept |
| MobileVideoUtils.AndroidIntentRoundTrip | lib/mobile-video-utils.ts:92-93 | the address read back out of an intent link is the URL without its scheme |
| MobileVideoUtils.AppIntentsSpec | lib/mobile-video-utils.ts:86-103 | both Android links carry the URL without its scheme; the browser and download fallbacks are the URL itself |
| JsText.ParseIntOfDigits | src/screens/QuickAddScreen.tsx:38-40 | `Number.parseInt` of a digit string is its decimal value |
| JsText.ParseIntNatToString | app/add-content/page.tsx:144 | `parseInt` reads back what `toString` writes |
| JsText.ReplaceFirstSpec | src/screens/QuickAddScreen.tsx:59-63 | a string `.replace` changes only the first occurrence, or nothing when there is none |
| JsText.IndexOfSpec | app/add-content/page.tsx:56-59 | the search finds the first occurrence, and none only when there is none |
| JsText.PadStartDigits | app/add-content/page.tsx:117-118 | `padStart(2, "0")` on digits keeps them digits of the same value |
| JsText.AfterLastSpec | components/universal-video-player.tsx:207 | the last `split(...).pop()` piece is a suffix without the separator, preceded by one unless it is the whole text |
| JsText.BlankIffAllWhitespace | src/screens/QuickAddScreen.tsx:33-36 | `!s.trim()` holds exactly when every character is white space |

## Left out

- Storage I/O: localforage, AsyncStorage and `JSON.stringify`/`JSON.parse` are not modelled. The stores are fields: four lists on the web, and four slots (missing, unreadable, or holding a list) on the device.
- `WebStorage.StorageService` / `MobileStorage.StorageService`: each method is modelled as one atomic read-modify-write. In the source, every `await` lets another call interleave, and concurrent calls can lose each other's writes.
- `generateId`, `Date.now()` and `Math.random` are parameters. `encodeURIComponent` is a function parameter.
- `canPlayType` and everything that reads `navigator` or `document` beyond the user-agent string are parameters. The page's `window.innerWidth` test is a boolean.
- React rendering, effects other than those modelled, timers, toasts, alerts, navigation, and the `try`/`catch` around storage calls are left out.
- The other player components, the settings and bookmark screens, and the seek slider are not part of this model.
- `Library.MatchesSearch` / `Library.FilteredContentSpec`: case is folded on ASCII only. The source's `toLowerCase()` lowers all of Unicode, so an `Élite` title is found by `élite` in the source but not in the model.
- `UniversalVideoPlayer.GetVideoType` / `UniversalVideoPlayer.VideoTypeDefault`: the extension is lowered on ASCII only. A URL ending in `.MKV` (KELVIN SIGN) is `video/x-matroska` in the source but MP4 in the model.
- Strings elsewhere are sequences of Unicode scalar values. The download name counts UTF-16 code units explicitly, but other lengths (the `S`/`E` padding, slicing) assume text in the Basic Multilingual Plane.
- `Catalog.ViewingHistory`: `currentTime` and `duration` are integers. The source stores floating-point seconds.
- `WatchScreen.WatchScreen.HandleVideoProgress`: positions are whole seconds. The source receives `positionMillis / 1000`, a fraction.
- `WatchScreen.ResumeTime` / `WatchScreen.FormatWatchTime`: these take integer seconds, while the source's position is a float that `Math.floor` truncates.
- `AddContentScreen.BuildContentItem`: the `rating` field (`Number.parseFloat`) is not stored, and the catalog's `Draft` and `ContentItem` have no rating field. Floating-point parsing is not modelled.
- `JsText.ParseInt`: the result is an exact integer. The source's `Number.parseInt` returns a double, which rounds beyond 2^53 and is `Infinity` for 309 or more digits.
- `AddContentPage.LoopCount` / `QuickAddScreen.FieldOr`: both follow `JsText.ParseInt`, so an `Infinity` count is not modelled. With `Infinity` the source's episode loops never end, and `|| 10` keeps it.
- Concrete example filenames are not evaluated. Every shape property is proved for all inputs of that shape.

## Findings

| source | as written | input that shows it | evidently intended | confidence | as-written member | corrected member |
|---|---|---|---|---|---|---|
| app/page.tsx:35-39 | `loadRecentlyWatched` runs only from the mount effect, whose closure reads the first render's `isMobile` (false, app/page.tsx:19), so the row keeps 5 entries on every device | a phone with five or more watched items that are all still in the library | the row keeps 3 entries on a phone (app/page.tsx:53) | not executed | Library.MountedRowOnPhone | Library.IntendedRowBound |
| components/universal-video-player.tsx:36-47 | the mount effect's `loadVideoJS` calls the first render's `initializePlayer` (line 86), whose error handler (lines 151-173) reads that render's `isMobile`, `false` from line 31; only `retryVideoJS` (lines 316-328) registers a handler that sees the detected device | a phone whose player fails with no media error code, or a code outside 1 to 4, before any retry | a phone gets "Mobile playback restricted. Try the options below." | not executed | UniversalVideoPlayer.MountedFallbackOnPhone | UniversalVideoPlayer.FallbackPerDevice |
