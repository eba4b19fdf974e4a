/**
 * How the web add flows turn the URL of one episode into the URLs of the
 * others. Mode A re-numbers the `S..E..` token found by the filename parser;
 * Mode B, used when the filename does not parse, rewrites every match of the
 * first of four episode-number patterns, or appends an `episode` query
 * parameter.
 */
module EpisodeUrls {
  import opened JsText
  import opened FilenameParser

  /** `i.toString().padStart(2, "0")`. */
  function Pad2(i: nat): (r: string)
    ensures |r| >= 2 && AllDigits(r) && DigitsValue(r) == i
  {
    NatToStringValue(i);
    PadStartDigits(NatToString(i));
    PadStart(NatToString(i), 2, '0')
  }

  // ---------------------------------------------------------------------------
  // Mode A

  /**
   * Episode i from a parsed base URL: the first case-insensitive occurrence of
   * the parsed season and episode, written out, becomes the season followed by
   * `E` and i padded to two digits.
   */
  function ModeAUrl(baseUrl: string, info: ParsedVideoInfo, i: nat): string
  {
    ReplaceFirst(baseUrl, info.season + info.episode, info.season + ("E" + Pad2(i)), true)
  }

  /** Padding to two characters leaves a string of two or more characters alone. */
  lemma PadStartLong(s: string)
    requires |s| >= 2
    ensures PadStart(s, 2, '0') == s
  {
  }

  /** A `.` cannot be part of an occurrence of a token without dots. */
  lemma {:induction false} NoMatchAcrossDot(pre: string, tok: string, post: string, j: nat)
    requires !Contains(pre, tok, true)
    requires forall k :: 0 <= k < |tok| ==> !SameCI('.', tok[k])
    requires j <= |pre|
    ensures !MatchesAt(pre + "." + tok + post, j, tok, true)
  {
    var s := pre + "." + tok + post;
    IndexOfSpec(pre, tok, true, 0);
    if j + |tok| <= |pre| {
      assert !MatchesAt(pre, j, tok, true);
      var k :| 0 <= k < |tok| && !SameCI(pre[j + k], tok[k]);
      assert s[j + k] == pre[j + k];
    } else if j + |tok| <= |s| {
      var k := |pre| - j;
      assert s[j + k] == '.';
      assert !SameCI(s[j + k], tok[k]);
    }
  }

  /**
   * Where a `S<season>E<episode>` token is in a bare episode URL: right after
   * the name, provided the directory and the name do not already hold it.
   */
  lemma {:induction false} BareEpisodeTokenIndex(dir: string, name: string, season: string, episode: string, quality: string)
    requires AllDigits(season) && AllDigits(episode)
    requires var tok := "S" + season + "E" + episode; !Contains(dir + "/" + name, tok, true)
    ensures var url := dir + "/" + BareEpisodeName(name, season, episode, quality);
      IndexOf(url, "S" + season + "E" + episode, true, 0) == Some(|dir| + |name| + 2)
  {
    var tok := "S" + season + "E" + episode;
    var pre := dir + "/" + name;
    BareEpisodeSplit(dir, name, season, episode, quality);
    forall k | 0 <= k < |tok|
      ensures !SameCI('.', tok[k])
    {
      assert tok[k] == 'S' || tok[k] == 'E' || IsDigit(tok[k]);
    }
    IndexAfterDot(pre, tok, "." + quality + "p.mkv");
  }

  /** A dot-free token that the text before a dot does not hold is first found right after that dot. */
  lemma IndexAfterDot(pre: string, tok: string, post: string)
    requires !Contains(pre, tok, true)
    requires forall k :: 0 <= k < |tok| ==> !SameCI('.', tok[k])
    ensures IndexOf(pre + "." + tok + post, tok, true, 0) == Some(|pre| + 1)
  {
    var url := pre + "." + tok + post;
    MatchesAtMiddle(pre + ".", tok, post, true);
    forall j: nat | j < |pre| + 1
      ensures !MatchesAt(url, j, tok, true)
    {
      NoMatchAcrossDot(pre, tok, post, j);
    }
    IndexOfFirst(url, tok, true, |pre| + 1);
  }

  /** A bare episode URL is the text before the token, the token, and the text after it. */
  lemma BareEpisodeSplit(dir: string, name: string, season: string, episode: string, quality: string)
    ensures dir + "/" + BareEpisodeName(name, season, episode, quality)
      == (dir + "/" + name + ".") + ("S" + season + "E" + episode) + ("." + quality + "p.mkv")
  {
  }

  /** Replacing a first occurrence that sits between a and b. */
  lemma ReplaceBetween(a: string, tok: string, b: string, rep: string, ci: bool)
    requires IndexOf(a + tok + b, tok, ci, 0) == Some(|a|)
    ensures ReplaceFirst(a + tok + b, tok, rep, ci) == a + rep + b
  {
    var s := a + tok + b;
    assert s[..|a|] == a;
    assert s[|a| + |tok|..] == b;
  }

  /** Mode A's replacement on a bare episode URL changes only the episode number. */
  lemma ModeAOnBareName(dir: string, name: string, season: string, episode: string, quality: string, i: nat)
    requires AllDigits(season) && AllDigits(episode)
    requires var tok := "S" + season + "E" + episode; !Contains(dir + "/" + name, tok, true)
    ensures var url := dir + "/" + BareEpisodeName(name, season, episode, quality);
      ReplaceFirst(url, "S" + season + "E" + episode, "S" + season + "E" + Pad2(i), true)
        == dir + "/" + BareEpisodeName(name, season, Pad2(i), quality)
  {
    var a := dir + "/" + name + ".";
    var b := "." + quality + "p.mkv";
    BareEpisodeSplit(dir, name, season, episode, quality);
    BareEpisodeSplit(dir, name, season, Pad2(i), quality);
    BareEpisodeTokenIndex(dir, name, season, episode, quality);
    ReplaceInSplit(dir + "/" + BareEpisodeName(name, season, episode, quality), a, "S" + season + "E" + episode, b,
      "S" + season + "E" + Pad2(i), dir + "/" + BareEpisodeName(name, season, Pad2(i), quality));
  }

  /** ReplaceBetween, for texts known to have that shape. */
  lemma ReplaceInSplit(url: string, a: string, tok: string, b: string, rep: string, next: string)
    requires url == a + tok + b && next == a + rep + b
    requires IndexOf(url, tok, true, 0) == Some(|a|)
    ensures ReplaceFirst(url, tok, rep, true) == next
  {
    ReplaceBetween(a, tok, b, rep, true);
  }

  /**
   * Mode A on a bare episode URL whose season and episode already have two or
   * more digits: the URL parses, URL i is the same URL with episode number i,
   * and it parses back to the same series with episode i.
   */
  lemma ModeARenumbers(dir: string, name: string, season: string, episode: string, quality: string, i: nat)
    requires name != [] && AllAny(name) && '.' !in name && '/' !in name
    requires |season| >= 2 && |episode| >= 2 && |quality| >= 1
    requires AllDigits(season) && AllDigits(episode) && AllDigits(quality)
    requires var tok := "S" + season + "E" + episode; !Contains(dir + "/" + name, tok, true)
    ensures var url := dir + "/" + BareEpisodeName(name, season, episode, quality);
      var info := ParsedVideoInfo(CleanSeriesName(name), "S" + season, "E" + episode, quality + "p", [], []);
      var next := dir + "/" + BareEpisodeName(name, season, Pad2(i), quality);
      && ParseVideoUrl(url) == Some(info)
      && ModeAUrl(url, info, i) == next
      && ParseVideoUrl(next) == Some(info.(episode := "E" + Pad2(i)))
  {
    BareEpisodeParses(dir, name, season, episode, quality);
    PadStartLong(season);
    PadStartLong(episode);
    ModeAOnBareInfo(dir, name, season, episode, quality, i);
    BareEpisodeParses(dir, name, season, Pad2(i), quality);
    PadStartLong(Pad2(i));
  }

  lemma SeasonEpisodeToken(season: string, episode: string)
    ensures ("S" + season) + ("E" + episode) == "S" + season + "E" + episode
  {
  }

  /** Mode A with the parse result of a bare episode URL. */
  lemma ModeAOnBareInfo(dir: string, name: string, season: string, episode: string, quality: string, i: nat)
    requires AllDigits(season) && AllDigits(episode)
    requires var tok := "S" + season + "E" + episode; !Contains(dir + "/" + name, tok, true)
    ensures var url := dir + "/" + BareEpisodeName(name, season, episode, quality);
      var info := ParsedVideoInfo(CleanSeriesName(name), "S" + season, "E" + episode, quality + "p", [], []);
      ModeAUrl(url, info, i) == dir + "/" + BareEpisodeName(name, season, Pad2(i), quality)
  {
    var url := dir + "/" + BareEpisodeName(name, season, episode, quality);
    var info := ParsedVideoInfo(CleanSeriesName(name), "S" + season, "E" + episode, quality + "p", [], []);
    SeasonEpisodeToken(season, episode);
    SeasonEpisodeToken(season, Pad2(i));
    ModeAOnBareName(dir, name, season, episode, quality, i);
  }

  /** When the padded token is absent (the URL spells `S1E3`, say), every Mode A URL is the base URL. */
  lemma ModeAWithoutToken(baseUrl: string, info: ParsedVideoInfo, i: nat)
    requires !Contains(baseUrl, info.season + info.episode, true)
    ensures ModeAUrl(baseUrl, info, i) == baseUrl
  {
    ReplaceFirstSpec(baseUrl, info.season + info.episode, info.season + ("E" + Pad2(i)), true);
  }

  // ---------------------------------------------------------------------------
  // Mode B

  /** `<word>[-_]?\d+` when separator holds, `<word>\d+` otherwise; the word matches case-insensitively. */
  datatype EpisodePattern = EpisodePattern(word: string, separator: bool)

  /** `/episode[-_]?\d+/gi`, `/ep[-_]?\d+/gi`, `/e\d+/gi`, `/\d+/g`, in the order they are tried. */
  const ModeBPatterns: seq<EpisodePattern> :=
    [EpisodePattern("episode", true), EpisodePattern("ep", true), EpisodePattern("e", false), EpisodePattern("", false)]

  /** `\d+`, the last pattern. */
  const DigitsPattern := EpisodePattern("", false)

  /**
   * The length of the match of the pattern that starts at index j, if any.
   * The separator is taken when a digit follows it; the digit run is greedy.
   */
  function MatchLen(s: string, j: nat, p: EpisodePattern): (r: Option<nat>)
    requires j <= |s|
    ensures r.Some? ==> 1 <= r.value && j + r.value <= |s|
    ensures r.Some? ==> IsDigit(s[j + r.value - 1])
    ensures r.Some? && j + r.value < |s| ==> !IsDigit(s[j + r.value])
  {
    var k := j + |p.word|;
    if k <= |s| && MatchesAt(s, j, p.word, true) then
      if p.separator && k < |s| && (s[k] == '-' || s[k] == '_') && DigitRun(s, k + 1) >= 1 then
        Some(|p.word| + 1 + DigitRun(s, k + 1))
      else if DigitRun(s, k) >= 1 then
        Some(|p.word| + DigitRun(s, k))
      else
        None
    else
      None
  }

  /** The first index at or after from where the pattern matches. */
  function FirstMatch(s: string, p: EpisodePattern, from: nat): (r: Option<nat>)
    requires from <= |s|
    ensures r.Some? ==> from <= r.value <= |s| && MatchLen(s, r.value, p).Some?
    decreases |s| - from
  {
    if MatchLen(s, from, p).Some? then Some(from)
    else if from == |s| then None
    else FirstMatch(s, p, from + 1)
  }

  /** FirstMatch finds the first match: there is none before it, and none at all when it finds nothing. */
  lemma {:induction false} FirstMatchSpec(s: string, p: EpisodePattern, from: nat)
    requires from <= |s|
    ensures FirstMatch(s, p, from).Some? ==> forall j :: from <= j < FirstMatch(s, p, from).value ==> MatchLen(s, j, p).None?
    ensures FirstMatch(s, p, from).None? ==> forall j :: from <= j <= |s| ==> MatchLen(s, j, p).None?
    decreases |s| - from
  {
    if MatchLen(s, from, p).None? && from < |s| {
      FirstMatchSpec(s, p, from + 1);
    }
  }

  /** `s.replace(pattern, rep)` with the `g` flag, scanning from index j. */
  function ReplaceAll(s: string, p: EpisodePattern, rep: string, j: nat): string
    requires j <= |s|
    decreases |s| - j
  {
    if j == |s| then []
    else
      match MatchLen(s, j, p)
      case Some(n) => rep + ReplaceAll(s, p, rep, j + n)
      case None => [s[j]] + ReplaceAll(s, p, rep, j + 1)
  }

  /** The index of the first pattern, from q on, that `test`s true on s. */
  function FirstPattern(s: string, q: nat): (r: Option<nat>)
    requires q <= |ModeBPatterns|
    ensures r.Some? ==> q <= r.value < |ModeBPatterns| && FirstMatch(s, ModeBPatterns[r.value], 0).Some?
    decreases |ModeBPatterns| - q
  {
    if q == |ModeBPatterns| then None
    else if FirstMatch(s, ModeBPatterns[q], 0).Some? then Some(q)
    else FirstPattern(s, q + 1)
  }

  /** FirstPattern picks the first pattern that matches, and finds none only when none matches. */
  lemma {:induction false} FirstPatternSpec(s: string, q: nat)
    requires q <= |ModeBPatterns|
    ensures FirstPattern(s, q).Some? ==> forall m :: q <= m < FirstPattern(s, q).value ==> FirstMatch(s, ModeBPatterns[m], 0).None?
    ensures FirstPattern(s, q).None? ==> forall m :: q <= m < |ModeBPatterns| ==> FirstMatch(s, ModeBPatterns[m], 0).None?
    decreases |ModeBPatterns| - q
  {
    if q < |ModeBPatterns| && FirstMatch(s, ModeBPatterns[q], 0).None? {
      var r := FirstPattern(s, q + 1);
      assert FirstPattern(s, q) == r;
      FirstPatternSpec(s, q + 1);
      var hi := if r.Some? then r.value else |ModeBPatterns|;
      forall m | q <= m < hi
        ensures FirstMatch(s, ModeBPatterns[m], 0).None?
      {
        if m == q {
        }
      }
    }
  }

  /** The pattern that matches first, with none before it, is the one Mode B uses. */
  lemma FirstPatternIs(s: string, q: nat)
    requires q < |ModeBPatterns| && FirstMatch(s, ModeBPatterns[q], 0).Some?
    requires forall m :: 0 <= m < q ==> FirstMatch(s, ModeBPatterns[m], 0).None?
    ensures FirstPattern(s, 0) == Some(q)
  {
    FirstPatternSpec(s, 0);
    var r := FirstPattern(s, 0);
    assert r.Some?;
    assert !(r.value < q);
  }

  /** The `episode=i` query parameter, joined with `&` when the URL already has a `?`. */
  function AppendEpisodeParam(baseUrl: string, i: nat): string
  {
    baseUrl + (if Contains(baseUrl, "?", false) then "&" else "?") + "episode=" + NatToString(i)
  }

  /** Episode i from a base URL that does not parse. */
  function ModeBUrl(baseUrl: string, i: nat): string
  {
    match FirstPattern(baseUrl, 0)
    case Some(q) => ReplaceAll(baseUrl, ModeBPatterns[q], "episode" + NatToString(i), 0)
    case None => AppendEpisodeParam(baseUrl, i)
  }

  /** Text without matches is copied unchanged. */
  lemma {:induction false} ReplaceAllSkips(s: string, p: EpisodePattern, rep: string, from: nat, j: nat)
    requires from <= j <= |s|
    requires forall m :: from <= m < j ==> MatchLen(s, m, p).None?
    ensures ReplaceAll(s, p, rep, from) == s[from..j] + ReplaceAll(s, p, rep, j)
    decreases j - from
  {
    if from < j {
      ReplaceAllSkips(s, p, rep, from + 1, j);
      assert s[from..j] == [s[from]] + s[from + 1..j];
    }
  }

  /** After a greedy digit run the replaced text does not start with a digit. */
  lemma ReplaceAllHead(s: string, p: EpisodePattern, rep: string, j: nat)
    requires j <= |s|
    requires j < |s| ==> !IsDigit(s[j])
    requires |rep| >= 1 && !IsDigit(rep[0])
    ensures var r := ReplaceAll(s, p, rep, j); |r| >= 1 ==> !IsDigit(r[0])
  {
  }

  /** Mode B with a matching pattern: the text before the first match, the new number, then the rest. */
  lemma ReplaceFirstMatch(s: string, p: EpisodePattern, rep: string, j: nat, n: nat)
    requires FirstMatch(s, p, 0) == Some(j) && MatchLen(s, j, p) == Some(n)
    ensures j + n <= |s|
    ensures ReplaceAll(s, p, rep, 0) == s[..j] + rep + ReplaceAll(s, p, rep, j + n)
  {
    FirstMatchSpec(s, p, 0);
    ReplaceAllSkips(s, p, rep, 0, j);
    ReplaceAllAtMatch(s, p, rep, j, n);
    assert s[0..j] == s[..j];
    AssociateRight(ReplaceAll(s, p, rep, 0), s[..j], rep, ReplaceAll(s, p, rep, j + n));
  }

  /** At a match the replacement is emitted and the matched text skipped. */
  lemma ReplaceAllAtMatch(s: string, p: EpisodePattern, rep: string, j: nat, n: nat)
    requires j <= |s| && MatchLen(s, j, p) == Some(n)
    ensures j + n <= |s|
    ensures ReplaceAll(s, p, rep, j) == rep + ReplaceAll(s, p, rep, j + n)
  {
    assert j < |s|;
  }

  /** A digit string followed by text that does not start with a digit is the whole leading digit run. */
  lemma {:induction false} LeadingRun(d: string, rest: string, i: nat)
    requires AllDigits(d) && i <= |d|
    requires |rest| >= 1 ==> !IsDigit(rest[0])
    ensures DigitRun(d + rest, i) == |d| - i
    decreases |d| - i
  {
    if i < |d| {
      LeadingRun(d, rest, i + 1);
    }
  }

  /** Two such decompositions of the same text have the same digits. */
  lemma SameLeadingDigits(d1: string, r1: string, d2: string, r2: string)
    requires AllDigits(d1) && AllDigits(d2)
    requires |r1| >= 1 ==> !IsDigit(r1[0])
    requires |r2| >= 1 ==> !IsDigit(r2[0])
    requires d1 + r1 == d2 + r2
    ensures d1 == d2
  {
    LeadingRun(d1, r1, 0);
    LeadingRun(d2, r2, 0);
    assert d1 == (d1 + r1)[..|d1|];
    assert d2 == (d2 + r2)[..|d2|];
  }

  /** `toString` is one-to-one on natural numbers. */
  lemma NatToStringInjective(i: nat, k: nat)
    requires NatToString(i) == NatToString(k)
    ensures i == k
  {
    NatToStringValue(i);
    NatToStringValue(k);
  }

  /** Mode B appends the query parameter exactly when the URL holds no digit. */
  lemma ModeBAppendsIffNoDigit(baseUrl: string, i: nat)
    ensures FirstPattern(baseUrl, 0).None? <==> forall k :: 0 <= k < |baseUrl| ==> !IsDigit(baseUrl[k])
    ensures (forall k :: 0 <= k < |baseUrl| ==> !IsDigit(baseUrl[k])) ==> ModeBUrl(baseUrl, i) == AppendEpisodeParam(baseUrl, i)
  {
    if k :| 0 <= k < |baseUrl| && IsDigit(baseUrl[k]) {
      assert MatchLen(baseUrl, k, ModeBPatterns[3]).Some?;
      FirstMatchSpec(baseUrl, ModeBPatterns[3], 0);
      FirstPatternSpec(baseUrl, 0);
    }
  }

  /** The part of every Mode B URL of a base URL that comes before the episode number. */
  function ModeBPrefix(baseUrl: string): string
  {
    match FirstPattern(baseUrl, 0)
    case Some(q) => baseUrl[..FirstMatch(baseUrl, ModeBPatterns[q], 0).value] + "episode"
    case None => baseUrl + (if Contains(baseUrl, "?", false) then "&" else "?") + "episode="
  }

  /** Every Mode B URL is the common prefix, the episode number, and text that does not start with a digit. */
  lemma ModeBShape(baseUrl: string, i: nat) returns (rest: string)
    ensures ModeBUrl(baseUrl, i) == ModeBPrefix(baseUrl) + (NatToString(i) + rest)
    ensures |rest| >= 1 ==> !IsDigit(rest[0])
  {
    match FirstPattern(baseUrl, 0)
    case Some(q) =>
      var p := ModeBPatterns[q];
      var rep := "episode" + NatToString(i);
      assert ModeBUrl(baseUrl, i) == ReplaceAll(baseUrl, p, rep, 0);
      assert ModeBPrefix(baseUrl) == baseUrl[..FirstMatch(baseUrl, p, 0).value] + "episode";
      rest := ReplacedShape(baseUrl, p, "episode", NatToString(i), FirstMatch(baseUrl, p, 0).value);
    case None =>
      rest := [];
      assert ModeBUrl(baseUrl, i) == ModeBPrefix(baseUrl) + NatToString(i);
      assert NatToString(i) + rest == NatToString(i);
  }

  /** Replacing the matches of a pattern first found at j by b + d: the text before j, b, d, then the rest. */
  lemma ReplacedShape(s: string, p: EpisodePattern, b: string, d: string, j: nat) returns (rest: string)
    requires FirstMatch(s, p, 0) == Some(j)
    requires |b| >= 1 && !IsDigit(b[0])
    ensures ReplaceAll(s, p, b + d, 0) == s[..j] + b + (d + rest)
    ensures |rest| >= 1 ==> !IsDigit(rest[0])
  {
    var rep := b + d;
    var n := MatchLen(s, j, p).value;
    assert j + n <= |s| && (j + n < |s| ==> !IsDigit(s[j + n]));
    ReplaceFirstMatch(s, p, rep, j, n);
    rest := ReplaceAll(s, p, rep, j + n);
    assert rep[0] == b[0];
    ReplaceAllHead(s, p, rep, j + n);
    Regroup(ReplaceAll(s, p, rep, 0), s[..j], b, d, rest);
  }

  /** Different episode numbers give different Mode B URLs. */
  lemma ModeBDistinct(baseUrl: string, i: nat, k: nat)
    ensures ModeBUrl(baseUrl, i) == ModeBUrl(baseUrl, k) ==> i == k
  {
    var ti := ModeBShape(baseUrl, i);
    var tk := ModeBShape(baseUrl, k);
    var pre := ModeBPrefix(baseUrl);
    if ModeBUrl(baseUrl, i) == ModeBUrl(baseUrl, k) {
      assert NatToString(i) + ti == ModeBUrl(baseUrl, i)[|pre|..];
      assert NatToString(k) + tk == ModeBUrl(baseUrl, k)[|pre|..];
      SameLeadingDigits(NatToString(i), ti, NatToString(k), tk);
      NatToStringInjective(i, k);
    }
  }
}
