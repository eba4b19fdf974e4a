/**
 * The filename metadata parser (`parseVideoUrl`). Four copies exist in the
 * application; three of them (the add-content page and both storage
 * services) try the three patterns below and report `x265`, `10bit` and
 * subtitles, the quick-add page tries only the first two and also reports
 * `x264`. Both variants are modelled here over one shared matcher.
 *
 *   pattern 1  ^.*?-(.+?)\.S(\d+)E(\d+)\.(\d+p)\.(.+?)\.x(\d+)\.(.+?)\.mkv$   (flag i)
 *   pattern 2  ^(.+?)\.S(\d+)E(\d+)\.(\d+p)\.(.+?)\.mkv$
 *   pattern 3  ^(.+?)\.S(\d+)E(\d+)\.(\d+p)\.mkv$
 *
 * The regular expressions are matched by hand. A lazy `.+?` is an
 * ascending search over lengths whose characters are all matched by `.`
 * (no line terminator); a greedy `\d+` that is followed by a non-digit
 * literal can only end at the end of the digit run; an `(.+?)` followed by
 * `\.mkv$` can only end four characters before the end.
 */
module FilenameParser {
  import opened JsText

  /** The groups of one successful match: name, season, episode, quality and the groups after the quality. */
  datatype Captures = Captures(name: string, season: string, episode: string, quality: string, rest: seq<string>)

  datatype ParsedVideoInfo = ParsedVideoInfo(
    seriesName: string,
    season: string,
    episode: string,
    quality: string,
    languages: seq<string>,
    format: string)

  /** The part `\.S(\d+)E(\d+)\.(\d+p)` of every pattern, found at index k; end is the index after the `p`. */
  datatype Token = Token(season: string, episode: string, quality: string, end: nat)

  // ---------------------------------------------------------------------------
  // The episode token

  /** The n characters of f from index i are digits. */
  predicate DigitsAt(f: string, i: nat, n: nat)
  {
    i + n <= |f| && forall j :: i <= j < i + n ==> IsDigit(f[j])
  }

  /**
   * `\.S(\d+)E(\d+)\.(\d+)p` occurs at index k with s season digits, e
   * episode digits and q quality digits.
   */
  predicate TokenShape(f: string, k: nat, s: nat, e: nat, q: nat)
  {
    && s >= 1 && e >= 1 && q >= 1
    && k + 5 + s + e + q <= |f|
    && f[k] == '.' && Letter(f[k + 1], 'S', 's')
    && DigitsAt(f, k + 2, s) && Letter(f[k + 2 + s], 'E', 'e')
    && DigitsAt(f, k + 3 + s, e) && f[k + 3 + s + e] == '.'
    && DigitsAt(f, k + 4 + s + e, q) && Letter(f[k + 4 + s + e + q], 'P', 'p')
  }

  /** The token with s season digits, e episode digits and q quality digits at index k. */
  function TokenOf(f: string, k: nat, s: nat, e: nat, q: nat): Token
    requires k + 5 + s + e + q <= |f|
  {
    Token(f[k + 2..k + 2 + s], f[k + 3 + s..k + 3 + s + e], f[k + 4 + s + e..k + 5 + s + e + q], k + 5 + s + e + q)
  }

  /** Declarative form of "the token t occurs at index k". */
  ghost predicate IsTokenAt(f: string, k: nat, t: Token)
  {
    var s := |t.season|;
    var e := |t.episode|;
    var q := |t.quality| - 1;
    && q >= 0 && TokenShape(f, k, s, e, q)
    && t == TokenOf(f, k, s, e, q)
  }

  /**
   * The lengths of the season digits, episode digits and quality digits of
   * a token at index k, computed with greedy digit runs.
   */
  function TokenLengths(f: string, k: nat): Option<(nat, nat, nat)>
  {
    if k + 2 <= |f| && f[k] == '.' && Letter(f[k + 1], 'S', 's') then
      var s := DigitRun(f, k + 2);
      if s > 0 && k + 2 + s < |f| && Letter(f[k + 2 + s], 'E', 'e') then
        var e := DigitRun(f, k + 3 + s);
        if e > 0 && k + 3 + s + e < |f| && f[k + 3 + s + e] == '.' then
          var q := DigitRun(f, k + 4 + s + e);
          if q > 0 && k + 4 + s + e + q < |f| && Letter(f[k + 4 + s + e + q], 'P', 'p') then Some((s, e, q)) else None
        else None
      else None
    else None
  }

  function TokenAt(f: string, k: nat): (r: Option<Token>)
    ensures r.Some? ==> AllDigits(r.value.season) && AllDigits(r.value.episode) && r.value.end <= |f|
  {
    match TokenLengths(f, k)
    case Some((s, e, q)) =>
      TokenLengthsSound(f, k);
      Some(TokenOf(f, k, s, e, q))
    case None => None
  }

  /** The lengths found describe a token. */
  lemma TokenLengthsSound(f: string, k: nat)
    ensures TokenLengths(f, k).Some? ==>
      var t := TokenLengths(f, k).value;
      TokenShape(f, k, t.0, t.1, t.2)
  {
  }

  /** A slice that is a digit string is a run of digits. */
  lemma DigitsOfSlice(f: string, i: nat, x: string)
    requires i + |x| <= |f| && f[i..i + |x|] == x && AllDigits(x)
    ensures DigitsAt(f, i, |x|)
  {
    forall j | i <= j < i + |x| ensures IsDigit(f[j]) {
      assert f[j] == x[j - i];
    }
  }

  /** A digit run that ends at a non-digit is the whole greedy run. */
  lemma {:induction false} RunEnds(f: string, i: nat, n: nat)
    requires DigitsAt(f, i, n) && (i + n < |f| ==> !IsDigit(f[i + n]))
    ensures DigitRun(f, i) == n
    decreases n
  {
    if n > 0 {
      RunEnds(f, i + 1, n - 1);
    }
  }

  lemma {:induction false} TokenLengthsComplete(f: string, k: nat, s: nat, e: nat, q: nat)
    requires TokenShape(f, k, s, e, q)
    ensures TokenLengths(f, k) == Some((s, e, q))
  {
    RunEnds(f, k + 2, s);
    RunEnds(f, k + 3 + s, e);
    RunEnds(f, k + 4 + s + e, q);
  }

  /** The matcher finds exactly the declarative token: `\d+` has only one way to match here. */
  lemma TokenAtComplete(f: string, k: nat, t: Token)
    requires IsTokenAt(f, k, t)
    ensures TokenAt(f, k) == Some(t)
  {
    var s, e, q := |t.season|, |t.episode|, |t.quality| - 1;
    TokenLengthsComplete(f, k, s, e, q);
    TokenAtFromLengths(f, k, s, e, q);
  }

  /** What the matcher finds is a token. */
  lemma TokenAtSound(f: string, k: nat)
    ensures TokenAt(f, k).Some? ==> IsTokenAt(f, k, TokenAt(f, k).value)
  {
    if TokenLengths(f, k).Some? {
      TokenLengthsSound(f, k);
    }
  }

  lemma TokenAtFromLengths(f: string, k: nat, s: nat, e: nat, q: nat)
    requires TokenLengths(f, k) == Some((s, e, q))
    ensures TokenAt(f, k) == Some(TokenOf(f, k, s, e, q))
  {
  }


  /** A pattern letter under the `i` flag: only its two ASCII cases match it. */
  predicate Letter(c: char, upper: char, lower: char) { c == upper || c == lower }

  /** The suffix `\.mkv$`. */
  predicate EndsWithMkv(f: string)
  {
    |f| >= 4 && f[|f| - 4] == '.' && Letter(f[|f| - 3], 'M', 'm') && Letter(f[|f| - 2], 'K', 'k') && Letter(f[|f| - 1], 'V', 'v')
  }

  // ---------------------------------------------------------------------------
  // The three patterns at a given split of the filename

  /** Pattern 3 with a name of length n. */
  function Pattern3At(f: string, n: nat): (r: Option<Captures>)
    ensures r.Some? ==> n <= |f| && r.value.rest == []
    ensures r.Some? ==> AllDigits(r.value.season) && AllDigits(r.value.episode) && EndsWithMkv(f)
  {
    if 1 <= n <= |f| && AllAny(f[..n]) then
      match TokenAt(f, n)
      case Some(t) =>
        if t.end + 4 == |f| && EndsWithMkv(f) then Some(Captures(f[..n], t.season, t.episode, t.quality, []))
        else None
      case None => None
    else None
  }

  /** Pattern 2 with a name of length n; the trailing group runs up to `.mkv`. */
  function Pattern2At(f: string, n: nat): (r: Option<Captures>)
    ensures r.Some? ==> n <= |f| && |r.value.rest| == 1
    ensures r.Some? ==> AllDigits(r.value.season) && AllDigits(r.value.episode) && EndsWithMkv(f)
  {
    if 1 <= n <= |f| && AllAny(f[..n]) then
      match TokenAt(f, n)
      case Some(t) =>
        if t.end + 6 <= |f| && f[t.end] == '.' && AllAny(f[t.end + 1..|f| - 4]) && EndsWithMkv(f) then
          Some(Captures(f[..n], t.season, t.episode, t.quality, [f[t.end + 1..|f| - 4]]))
        else None
      case None => None
    else None
  }

  /**
   * Pattern 1 with a prefix of length p before the `-`, a name of length n
   * and a first trailing group of length b; the codec group is the digit run
   * after `.x`, and the last group runs up to `.mkv`.
   */
  function Pattern1At(f: string, p: nat, n: nat, b: nat): (r: Option<Captures>)
    ensures r.Some? ==> p <= |f| && n <= |f| && b <= |f| && |r.value.rest| == 3
    ensures r.Some? ==> AllDigits(r.value.season) && AllDigits(r.value.episode) && EndsWithMkv(f)
  {
    if p < |f| && AllAny(f[..p]) && f[p] == '-' && 1 <= n && p + 1 + n <= |f| && AllAny(f[p + 1..p + 1 + n]) then
      match TokenAt(f, p + 1 + n)
      case Some(t) =>
        var c := t.end + 1 + b;
        if 1 <= b && c + 2 <= |f| && f[t.end] == '.' && AllAny(f[t.end + 1..c])
           && f[c] == '.' && Letter(f[c + 1], 'X', 'x') then
          var d := DigitRun(f, c + 2);
          var z := c + 2 + d;
          if d > 0 && z + 6 <= |f| && f[z] == '.' && AllAny(f[z + 1..|f| - 4]) && EndsWithMkv(f) then
            Some(Captures(f[p + 1..p + 1 + n], t.season, t.episode, t.quality,
                          [f[t.end + 1..c], f[c + 2..z], f[z + 1..|f| - 4]]))
          else None
        else None
      case None => None
    else None
  }

  // ---------------------------------------------------------------------------
  // Backtracking order: the first split that matches wins

  /** The least i in [lo, hi] satisfying P: how a lazy quantifier settles on its length. */
  function FirstFrom(P: nat -> bool, lo: nat, hi: nat): (r: Option<nat>)
    ensures r.Some? ==> lo <= r.value <= hi && P(r.value)
    decreases hi - lo + 1
  {
    if lo > hi then None
    else if P(lo) then Some(lo)
    else FirstFrom(P, lo + 1, hi)
  }

  /** Pattern 1: for prefix p and name length n, the shortest first trailing group that completes the match. */
  function SearchBlob(f: string, p: nat, n: nat): Option<nat>
  {
    FirstFrom((b: nat) => Pattern1At(f, p, n, b).Some?, 0, |f|)
  }

  /** Pattern 1: for prefix p, the shortest name for which some trailing group completes the match. */
  function SearchName(f: string, p: nat): Option<nat>
  {
    FirstFrom((n: nat) => SearchBlob(f, p, n).Some?, 0, |f|)
  }

  /** Pattern 1: the shortest prefix for which the rest of the pattern matches. */
  function SearchPrefix(f: string): Option<nat>
  {
    FirstFrom((p: nat) => SearchName(f, p).Some?, 0, |f|)
  }

  /** The split (prefix, name, first group) at which pattern 1 matches, if any. */
  function Split1(f: string): Option<(nat, nat, nat)>
  {
    match SearchPrefix(f)
    case Some(p) =>
      var n := SearchName(f, p).value;
      Some((p, n, SearchBlob(f, p, n).value))
    case None => None
  }

  /** Split (p', n', b') is tried before split (p, n, b) by the lazy quantifiers of pattern 1. */
  predicate TriedBefore(p': nat, n': nat, b': nat, p: nat, n: nat, b: nat)
  {
    p' < p || (p' == p && (n' < n || (n' == n && b' < b)))
  }

  /** `filename.match(pattern1)`. */
  function Match1(f: string): (r: Option<Captures>)
    ensures r.Some? ==> AllDigits(r.value.season) && AllDigits(r.value.episode) && EndsWithMkv(f)
    ensures r.Some? ==> |r.value.rest| == 3
  {
    match Split1(f)
    case Some((p, n, b)) => Pattern1At(f, p, n, b)
    case None => None
  }

  /** The name length at which pattern 2 matches, if any. */
  function Split2(f: string): Option<nat>
  {
    FirstFrom((n: nat) => Pattern2At(f, n).Some?, 0, |f|)
  }

  /** The name length at which pattern 3 matches, if any. */
  function Split3(f: string): Option<nat>
  {
    FirstFrom((n: nat) => Pattern3At(f, n).Some?, 0, |f|)
  }

  /** `filename.match(pattern2)`. */
  function Match2(f: string): (r: Option<Captures>)
    ensures r.Some? ==> AllDigits(r.value.season) && AllDigits(r.value.episode) && EndsWithMkv(f)
    ensures r.Some? ==> |r.value.rest| == 1
  {
    match Split2(f)
    case Some(n) => Pattern2At(f, n)
    case None => None
  }

  /** `filename.match(pattern3)`. */
  function Match3(f: string): (r: Option<Captures>)
    ensures r.Some? ==> AllDigits(r.value.season) && AllDigits(r.value.episode) && EndsWithMkv(f)
    ensures r.Some? ==> r.value.rest == []
  {
    match Split3(f)
    case Some(n) => Pattern3At(f, n)
    case None => None
  }

  /** The lazy search stops at or before every index that satisfies P. */
  lemma {:induction false} FirstFromLeast(P: nat -> bool, lo: nat, hi: nat, i: nat)
    requires lo <= i <= hi && P(i)
    ensures FirstFrom(P, lo, hi).Some? && FirstFrom(P, lo, hi).value <= i
    decreases hi - lo + 1
  {
    if !P(lo) {
      FirstFromLeast(P, lo + 1, hi, i);
    }
  }

  lemma BlobFound(f: string, p: nat, n: nat, b: nat)
    requires Pattern1At(f, p, n, b).Some?
    ensures SearchBlob(f, p, n).Some? && SearchBlob(f, p, n).value <= b
  {
    FirstFromLeast((b: nat) => Pattern1At(f, p, n, b).Some?, 0, |f|, b);
  }

  lemma NameFound(f: string, p: nat, n: nat)
    requires SearchBlob(f, p, n).Some?
    ensures SearchName(f, p).Some? && SearchName(f, p).value <= n
  {
    assert n <= |f| by {
      var b := SearchBlob(f, p, n).value;
      assert Pattern1At(f, p, n, b).Some?;
    }
    FirstFromLeast((n: nat) => SearchBlob(f, p, n).Some?, 0, |f|, n);
  }

  lemma PrefixFound(f: string, p: nat)
    requires SearchName(f, p).Some?
    ensures SearchPrefix(f).Some? && SearchPrefix(f).value <= p
  {
    assert p <= |f| by {
      var n := SearchName(f, p).value;
      var b := SearchBlob(f, p, n).value;
      assert Pattern1At(f, p, n, b).Some?;
    }
    FirstFromLeast((p: nat) => SearchName(f, p).Some?, 0, |f|, p);
  }

  /**
   * Pattern 1 matches at the first split in backtracking order that
   * completes it, and fails only when no split completes it.
   */
  lemma Split1First(f: string)
    ensures Split1(f).Some? ==>
      var (p, n, b) := Split1(f).value;
      && Match1(f) == Pattern1At(f, p, n, b) && Match1(f).Some?
      && forall p', n', b' :: TriedBefore(p', n', b', p, n, b) ==> Pattern1At(f, p', n', b').None?
    ensures Split1(f).None? ==> forall p, n, b :: Pattern1At(f, p, n, b).None?
  {
    forall p', n', b' | Pattern1At(f, p', n', b').Some?
      ensures Split1(f).Some? && !TriedBefore(p', n', b', Split1(f).value.0, Split1(f).value.1, Split1(f).value.2)
    {
      BlobFound(f, p', n', b');
      NameFound(f, p', n');
      PrefixFound(f, p');
    }
  }

  /** Patterns 2 and 3 match with the shortest name that completes them, and fail only when no name does. */
  lemma Split2And3First(f: string)
    ensures Split2(f).Some? ==> Match2(f) == Pattern2At(f, Split2(f).value) && Match2(f).Some?
    ensures forall n :: Pattern2At(f, n).Some? ==> Split2(f).Some? && Split2(f).value <= n
    ensures Split3(f).Some? ==> Match3(f) == Pattern3At(f, Split3(f).value) && Match3(f).Some?
    ensures forall n :: Pattern3At(f, n).Some? ==> Split3(f).Some? && Split3(f).value <= n
  {
    forall n | Pattern2At(f, n).Some? ensures Split2(f).Some? && Split2(f).value <= n {
      FirstFromLeast((n: nat) => Pattern2At(f, n).Some?, 0, |f|, n);
    }
    forall n | Pattern3At(f, n).Some? ensures Split3(f).Some? && Split3(f).value <= n {
      FirstFromLeast((n: nat) => Pattern3At(f, n).Some?, 0, |f|, n);
    }
  }

  // ---------------------------------------------------------------------------
  // Building the result

  /** `.replace(/\./g, " ").replace(/[-_]/g, " ")`. */
  function SeparatorsToSpaces(s: string): (r: string)
    ensures |r| == |s|
    ensures NoSeparators(r)
    ensures forall i :: 0 <= i < |s| ==> r[i] == (if s[i] == '.' || s[i] == '-' || s[i] == '_' then ' ' else s[i])
  {
    seq(|s|, i requires 0 <= i < |s| => if s[i] == '.' || s[i] == '-' || s[i] == '_' then ' ' else s[i])
  }

  predicate NoSeparators(s: string)
  {
    forall i :: 0 <= i < |s| ==> s[i] != '.' && s[i] != '-' && s[i] != '_'
  }

  /** No two adjacent white-space characters. */
  predicate NoWhitespaceRun(s: string)
  {
    forall i, j :: 0 <= i < |s| && 0 <= j < |s| && j == i + 1 ==> !(IsWhitespace(s[i]) && IsWhitespace(s[j]))
  }

  /** Every white-space character is a plain space. */
  predicate OnlySpaces(s: string)
  {
    forall i :: 0 <= i < |s| ==> IsWhitespace(s[i]) ==> s[i] == ' '
  }

  /** `.replace(/\s+/g, " ")`: each maximal run of white space becomes one space. */
  function CollapseWhitespace(s: string): (r: string)
    ensures |r| <= |s|
    decreases |s|
  {
    if s == [] then []
    else if IsWhitespace(s[0]) then [' '] + CollapseWhitespace(TrimStart(s[1..]))
    else [s[0]] + CollapseWhitespace(s[1..])
  }

  /**
   * The collapsed text has no two white-space characters in a row, its only
   * white space is the plain space, it gains no separator, and it starts with
   * white space exactly when the input does.
   */
  lemma {:induction false} CollapseSpec(s: string)
    ensures var r := CollapseWhitespace(s);
      && NoWhitespaceRun(r) && OnlySpaces(r)
      && (NoSeparators(s) ==> NoSeparators(r))
      && (r != [] ==> s != [] && (IsWhitespace(r[0]) <==> IsWhitespace(s[0])))
    decreases |s|
  {
    if s != [] {
      var t := if IsWhitespace(s[0]) then TrimStart(s[1..]) else s[1..];
      var c := if IsWhitespace(s[0]) then ' ' else s[0];
      assert CollapseWhitespace(s) == [c] + CollapseWhitespace(t);
      assert t == s[|s| - |t|..];
      assert t != [] && IsWhitespace(s[0]) ==> !IsWhitespace(t[0]);
      CollapseSpec(t);
      ConsShape(c, CollapseWhitespace(t));
      if NoSeparators(s) {
        SuffixNoSeparators(s, |s| - |t|);
      }
    }
  }

  /** A suffix of a text without separators has none. */
  lemma SuffixNoSeparators(s: string, k: nat)
    requires k <= |s| && NoSeparators(s)
    ensures NoSeparators(s[k..])
  {
    forall i | 0 <= i < |s| - k
      ensures s[k..][i] != '.' && s[k..][i] != '-' && s[k..][i] != '_'
    {
      assert s[k..][i] == s[k + i];
    }
  }

  /** Putting a character in front of a collapsed text keeps it collapsed, unless two white spaces meet. */
  lemma ConsShape(c: char, tail: string)
    requires NoWhitespaceRun(tail) && OnlySpaces(tail)
    requires IsWhitespace(c) ==> c == ' ' && (tail != [] ==> !IsWhitespace(tail[0]))
    ensures NoWhitespaceRun([c] + tail) && OnlySpaces([c] + tail)
    ensures NoSeparators(tail) && c != '.' && c != '-' && c != '_' ==> NoSeparators([c] + tail)
  {
    var r := [c] + tail;
    forall i, j | 0 <= i < |r| && 0 <= j < |r| && j == i + 1
      ensures !(IsWhitespace(r[i]) && IsWhitespace(r[j]))
    {
      assert r[j] == tail[j - 1];
      if i > 0 {
        assert r[i] == tail[i - 1];
      }
    }
    forall i | 0 <= i < |r|
      ensures IsWhitespace(r[i]) ==> r[i] == ' '
    {
      if i > 0 {
        assert r[i] == tail[i - 1];
      }
    }
    if NoSeparators(tail) && c != '.' && c != '-' && c != '_' {
      forall i | 0 <= i < |r|
        ensures r[i] != '.' && r[i] != '-' && r[i] != '_'
      {
        if i > 0 {
          assert r[i] == tail[i - 1];
        }
      }
    }
  }

  /** The cleaned series name. */
  function CleanSeriesName(s: string): (r: string)
    ensures NoSeparators(r) && NoWhitespaceRun(r) && OnlySpaces(r)
    ensures r != [] ==> !IsWhitespace(r[0]) && !IsWhitespace(r[|r| - 1])
  {
    CollapseSpec(SeparatorsToSpaces(s));
    TrimKeepsShape(CollapseWhitespace(SeparatorsToSpaces(s)));
    Trim(CollapseWhitespace(SeparatorsToSpaces(s)))
  }

  /** Trimming a cleaned string leaves it clean. */
  lemma TrimKeepsShape(c: string)
    requires NoSeparators(c) && NoWhitespaceRun(c) && OnlySpaces(c)
    ensures var r := Trim(c); NoSeparators(r) && NoWhitespaceRun(r) && OnlySpaces(r)
  {
    var r := Trim(c);
    var a := LeadingWhitespace(c);
    assert r == c[a..a + |r|];
    SliceKeepsShape(c, a, a + |r|);
  }

  /** A piece of a cleaned string is clean. */
  lemma SliceKeepsShape(c: string, a: nat, b: nat)
    requires a <= b <= |c|
    requires NoSeparators(c) && NoWhitespaceRun(c) && OnlySpaces(c)
    ensures NoSeparators(c[a..b]) && NoWhitespaceRun(c[a..b]) && OnlySpaces(c[a..b])
  {
    var r := c[a..b];
    forall i, j | 0 <= i < |r| && 0 <= j < |r| && j == i + 1
      ensures !(IsWhitespace(r[i]) && IsWhitespace(r[j]))
    {
      assert r[i] == c[a + i] && r[j] == c[a + j];
    }
  }

  /** The elements of order whose flag in keep is set, in the order of order. */
  function Select(order: seq<string>, keep: seq<bool>): (r: seq<string>)
    requires |keep| == |order|
    ensures forall x :: x in r ==> x in order
    ensures forall i :: 0 <= i < |order| && keep[i] ==> order[i] in r
    ensures forall i :: 0 <= i < |order| && order[i] in r && Distinct(order) ==> keep[i]
  {
    if order == [] then []
    else (if keep[0] then [order[0]] else []) + Select(order[1..], keep[1..])
  }

  /** Selecting from a list without repetitions keeps its order. */
  lemma {:induction false} SelectInOrder(order: seq<string>, keep: seq<bool>)
    requires |keep| == |order| && Distinct(order)
    ensures InOrder(Select(order, keep), order)
  {
    if order != [] {
      var tail := Select(order[1..], keep[1..]);
      SelectInOrder(order[1..], keep[1..]);
      forall x | x in tail ensures Rank(x, order) == 1 + Rank(x, order[1..]) {
        assert x != order[0];
      }
    }
  }

  /** No element occurs twice. */
  predicate Distinct(s: seq<string>)
  {
    forall i, j :: 0 <= i < j < |s| ==> s[i] != s[j]
  }

  /** Languages found by case-insensitive substring tests, in the fixed order Hindi, English. */
  function Languages(info: string): (r: seq<string>)
    ensures "Hindi" in r <==> Contains(info, "hindi", true)
    ensures "English" in r <==> Contains(info, "eng", true)
    ensures InOrder(r, ["Hindi", "English"])
  {
    var order := ["Hindi", "English"];
    var keep := [Contains(info, "hindi", true), Contains(info, "eng", true)];
    assert Distinct(order);
    assert order[0] == "Hindi" && order[1] == "English";
    SelectInOrder(order, keep);
    Select(order, keep)
  }

  /** Format tags in the fixed order x265, x264 (quick-add copy only), 10bit, Subtitles. */
  function FormatTags(info: string, withX264: bool): (r: seq<string>)
    ensures "x265" in r <==> Contains(info, "x265", true)
    ensures "x264" in r <==> withX264 && Contains(info, "x264", true)
    ensures "10bit" in r <==> Contains(info, "10bit", true)
    ensures "Subtitles" in r <==> Contains(info, "esub", true)
    ensures InOrder(r, ["x265", "x264", "10bit", "Subtitles"])
  {
    var order := ["x265", "x264", "10bit", "Subtitles"];
    var keep := [Contains(info, "x265", true), withX264 && Contains(info, "x264", true),
                 Contains(info, "10bit", true), Contains(info, "esub", true)];
    assert Distinct(order);
    assert order[0] == "x265" && order[1] == "x264" && order[2] == "10bit" && order[3] == "Subtitles";
    SelectInOrder(order, keep);
    Select(order, keep)
  }

  /** Every element of r is drawn from order, and r lists them in the order of order, each at most once. */
  predicate InOrder(r: seq<string>, order: seq<string>)
  {
    && (forall i :: 0 <= i < |r| ==> r[i] in order)
    && (forall i, j :: 0 <= i < j < |r| ==> Rank(r[i], order) < Rank(r[j], order))
  }

  /** The position of x in order (|order| when absent). */
  function Rank(x: string, order: seq<string>): (r: nat)
    ensures r <= |order|
    ensures r < |order| ==> order[r] == x
    ensures x !in order[..r]
  {
    if order == [] then 0
    else if order[0] == x then 0
    else 1 + Rank(x, order[1..])
  }

  /**
   * The result object built from a match. Season and episode are the
   * captured digits left-padded with zeros to two characters, never
   * truncated, so they keep their numeric value.
   */
  function BuildInfo(c: Captures, withX264: bool): (r: ParsedVideoInfo)
    requires AllDigits(c.season) && AllDigits(c.episode)
    ensures r.seriesName == CleanSeriesName(c.name)
    ensures r.quality == c.quality
  {
    ParsedVideoInfo(
      CleanSeriesName(c.name), "S" + PadStart(c.season, 2, '0'), "E" + PadStart(c.episode, 2, '0'), c.quality,
      Languages(Join(c.rest, ".")), Join(FormatTags(Join(c.rest, "."), withX264), ", "))
  }

  /** Season and episode are the captured numbers zero-padded to two digits behind `S` and `E`; the languages and the format come from the remaining parts. */
  lemma BuildInfoSpec(c: Captures, withX264: bool)
    requires AllDigits(c.season) && AllDigits(c.episode)
    ensures var r := BuildInfo(c, withX264);
      && |r.season| == 1 + (if |c.season| >= 2 then |c.season| else 2) && r.season[0] == 'S'
      && AllDigits(r.season[1..]) && DigitsValue(r.season[1..]) == DigitsValue(c.season)
      && |r.episode| == 1 + (if |c.episode| >= 2 then |c.episode| else 2) && r.episode[0] == 'E'
      && AllDigits(r.episode[1..]) && DigitsValue(r.episode[1..]) == DigitsValue(c.episode)
      && (|c.season| >= 2 ==> r.season[1..] == c.season)
      && (|c.episode| >= 2 ==> r.episode[1..] == c.episode)
      && r.languages == Languages(Join(c.rest, "."))
      && r.format == Join(FormatTags(Join(c.rest, "."), withX264), ", ")
  {
    var r := BuildInfo(c, withX264);
    PadStartDigits(c.season);
    PadStartDigits(c.episode);
    assert r.season[1..] == PadStart(c.season, 2, '0');
    assert r.episode[1..] == PadStart(c.episode, 2, '0');
  }

  /** The filename: the text after the last `/` of the URL. */
  function Filename(url: string): string
  {
    AfterLast(url, '/')
  }

  /** `parseVideoUrl` of the add-content page and of both storage services: patterns 1, 2, 3. */
  function ParseVideoUrl(url: string): Option<ParsedVideoInfo>
  {
    var f := Filename(url);
    if Match1(f).Some? then Some(BuildInfo(Match1(f).value, false))
    else if Match2(f).Some? then Some(BuildInfo(Match2(f).value, false))
    else if Match3(f).Some? then Some(BuildInfo(Match3(f).value, false))
    else None
  }

  /** `parseVideoUrl` of the quick-add page: patterns 1 and 2 only, and `x264` is reported. */
  function ParseQuickAddUrl(url: string): Option<ParsedVideoInfo>
  {
    var f := Filename(url);
    if Match1(f).Some? then Some(BuildInfo(Match1(f).value, true))
    else if Match2(f).Some? then Some(BuildInfo(Match2(f).value, true))
    else None
  }

  // ---------------------------------------------------------------------------
  // Properties of the parser

  /** The season, episode and quality of c are those of a token that occurs in f. */
  ghost predicate CapturesToken(f: string, c: Captures)
  {
    exists k: nat, t: Token :: IsTokenAt(f, k, t) && c.season == t.season && c.episode == t.episode && c.quality == t.quality
  }

  /**
   * The result reports a token that occurs in f: its season and episode are
   * the token's digits padded to two behind `S` and `E`, its quality the
   * token's quality.
   */
  ghost predicate ReportsToken(f: string, info: ParsedVideoInfo)
  {
    exists k: nat, t: Token :: IsTokenAt(f, k, t)
      && info.season == "S" + PadStart(t.season, 2, '0')
      && info.episode == "E" + PadStart(t.episode, 2, '0')
      && info.quality == t.quality
  }

  lemma Pattern1CapturesToken(f: string, p: nat, n: nat, b: nat)
    requires Pattern1At(f, p, n, b).Some?
    ensures CapturesToken(f, Pattern1At(f, p, n, b).value)
  {
    TokenAtSound(f, p + 1 + n);
    assert IsTokenAt(f, p + 1 + n, TokenAt(f, p + 1 + n).value);
  }

  /** Pattern 1 takes its season, episode and quality from a token of the filename. */
  lemma Match1CapturesToken(f: string)
    ensures Match1(f).Some? ==> CapturesToken(f, Match1(f).value)
  {
    if Match1(f).Some? {
      var (p, n, b) := Split1(f).value;
      assert Match1(f) == Pattern1At(f, p, n, b);
      Pattern1CapturesToken(f, p, n, b);
    }
  }

  /** So do patterns 2 and 3. */
  lemma Match23CapturesToken(f: string)
    ensures Match2(f).Some? ==> CapturesToken(f, Match2(f).value)
    ensures Match3(f).Some? ==> CapturesToken(f, Match3(f).value)
  {
    if Match2(f).Some? {
      var n := Split2(f).value;
      TokenAtSound(f, n);
      assert IsTokenAt(f, n, TokenAt(f, n).value);
    }
    if Match3(f).Some? {
      var n := Split3(f).value;
      TokenAtSound(f, n);
      assert IsTokenAt(f, n, TokenAt(f, n).value);
    }
  }

  /** The result built from captures that come from a token reports that token. */
  lemma BuildInfoReportsToken(f: string, c: Captures, withX264: bool)
    requires AllDigits(c.season) && AllDigits(c.episode) && CapturesToken(f, c)
    ensures ReportsToken(f, BuildInfo(c, withX264))
  {
    var k: nat, t: Token :| IsTokenAt(f, k, t) && c.season == t.season && c.episode == t.episode && c.quality == t.quality;
    var info := BuildInfo(c, withX264);
    assert IsTokenAt(f, k, t) && info.season == "S" + PadStart(t.season, 2, '0');
  }

  /** A result always comes from a `.mkv` filename, and its season and episode keep the captured numbers. */
  lemma {:induction false} ParsedFromMkv(url: string)
    ensures ParseVideoUrl(url).Some? ==> EndsWithMkv(Filename(url))
    ensures ParseQuickAddUrl(url).Some? ==> EndsWithMkv(Filename(url))
    ensures ParseVideoUrl(url).Some? ==>
      var info := ParseVideoUrl(url).value;
      |info.season| >= 3 && |info.episode| >= 3 && info.season[0] == 'S' && info.episode[0] == 'E'
  {
    var f := Filename(url);
    if Match1(f).Some? {
      var r := BuildInfo(Match1(f).value, false);
      BuildInfoSpec(Match1(f).value, false);
      assert ParseVideoUrl(url) == Some(r);
    } else if Match2(f).Some? {
      var r := BuildInfo(Match2(f).value, false);
      BuildInfoSpec(Match2(f).value, false);
      assert ParseVideoUrl(url) == Some(r);
    } else if Match3(f).Some? {
      var r := BuildInfo(Match3(f).value, false);
      BuildInfoSpec(Match3(f).value, false);
      assert ParseVideoUrl(url) == Some(r);
    } else {
      assert ParseVideoUrl(url).None? && ParseQuickAddUrl(url).None?;
    }
  }

  /**
   * A result always comes from a filename that holds an episode token
   * `.S<digits>E<digits>.<digits>p`: the result's season, episode and
   * quality are that token's, the numbers padded to two digits.
   */
  lemma {:induction false} ParsedFromToken(url: string)
    ensures ParseVideoUrl(url).Some? ==> ReportsToken(Filename(url), ParseVideoUrl(url).value)
    ensures ParseQuickAddUrl(url).Some? ==> ReportsToken(Filename(url), ParseQuickAddUrl(url).value)
  {
    var f := Filename(url);
    Match1CapturesToken(f);
    Match23CapturesToken(f);
    if Match1(f).Some? {
      BuildInfoReportsToken(f, Match1(f).value, false);
      BuildInfoReportsToken(f, Match1(f).value, true);
    } else if Match2(f).Some? {
      BuildInfoReportsToken(f, Match2(f).value, false);
      BuildInfoReportsToken(f, Match2(f).value, true);
    } else if Match3(f).Some? {
      BuildInfoReportsToken(f, Match3(f).value, false);
    }
  }

  /** No `x` or `X` in the text. */
  predicate NoLetterX(s: string)
  {
    forall i :: 0 <= i < |s| ==> s[i] != 'x' && s[i] != 'X'
  }

  /** A text none of whose characters matches the first letter of pat does not contain pat. */
  lemma AbsentWithoutFirstLetter(s: string, pat: string)
    requires |pat| >= 1 && forall i :: 0 <= i < |s| ==> !SameCI(s[i], pat[0])
    ensures !Contains(s, pat, true)
  {
    ContainsIff(s, pat, true);
    forall j | 0 <= j <= |s| - |pat| ensures !MatchesAt(s, j, pat, true) {
      assert !SameCI(s[j + 0], pat[0]);
    }
  }

  /** A text without the letter x does not contain `x265` in any case. */
  lemma NoX265WithoutX(s: string)
    requires NoLetterX(s)
    ensures !Contains(s, "x265", true)
  {
    assert "x265"[0] == 'x';
    AbsentWithoutFirstLetter(s, "x265");
  }

  /** Pattern 1's codec group is the digit run after `.x`; the `x` itself is not captured. */
  lemma Pattern1CodecDigits(f: string, p: nat, n: nat, b: nat)
    requires Pattern1At(f, p, n, b).Some?
    ensures AllDigits(Pattern1At(f, p, n, b).value.rest[1])
  {
    var t := TokenAt(f, p + 1 + n).value;
    var c := t.end + 1 + b;
    var d := DigitRun(f, c + 2);
    assert Pattern1At(f, p, n, b).value.rest[1] == f[c + 2..c + 2 + d];
  }

  /** Joining x-free groups around a group of digits gives an x-free text. */
  lemma JoinNoLetterX(a: string, digits: string, b: string)
    requires NoLetterX(a) && AllDigits(digits) && NoLetterX(b)
    ensures NoLetterX(Join([a, digits, b], "."))
  {
    var text := Join([a, digits, b], ".");
    assert [a, digits, b][1..] == [digits, b] && [digits, b][1..] == [b];
    assert Join([digits, b], ".") == digits + "." + b;
    assert text == a + "." + (digits + "." + b);
    forall i | 0 <= i < |text| ensures text[i] != 'x' && text[i] != 'X' {
      if i < |a| {
        assert text[i] == a[i];
      } else if |a| < i <= |a| + |digits| {
        assert text[i] == digits[i - |a| - 1];
      } else if i > |a| + |digits| + 1 {
        assert text[i] == b[i - |a| - |digits| - 2];
      }
    }
  }

  /**
   * Pattern 1 consumes the `x` of the codec group and captures only its
   * digits, so the formats are found in a text where that `x` is gone: a
   * pattern-1 filename whose other trailing groups have no `x` is never
   * reported as `x265`, whatever its codec group says.
   */
  lemma Pattern1DropsCodecLetter(url: string)
    requires Match1(Filename(url)).Some?
    ensures var c := Match1(Filename(url)).value;
      && AllDigits(c.rest[1])
      && ParseVideoUrl(url) == Some(BuildInfo(c, false))
      && ParseQuickAddUrl(url) == Some(BuildInfo(c, true))
      && (NoLetterX(c.rest[0]) && NoLetterX(c.rest[2]) ==>
            "x265" !in FormatTags(Join(c.rest, "."), false) && "x265" !in FormatTags(Join(c.rest, "."), true))
  {
    var f := Filename(url);
    var c := Match1(f).value;
    var (p, n, b) := Split1(f).value;
    assert c == Pattern1At(f, p, n, b).value;
    Pattern1CodecDigits(f, p, n, b);
    if NoLetterX(c.rest[0]) && NoLetterX(c.rest[2]) {
      assert c.rest == [c.rest[0], c.rest[1], c.rest[2]];
      JoinNoLetterX(c.rest[0], c.rest[1], c.rest[2]);
      NoX265WithoutX(Join(c.rest, "."));
    }
  }

  /**
   * The quick-add copy accepts a subset of what the library copy accepts,
   * and on it the two agree on every field but the format, which differs
   * only by the `x264` tag.
   */
  lemma {:induction false} QuickAddAgreesWithLibrary(url: string)
    ensures ParseQuickAddUrl(url).Some? ==> ParseVideoUrl(url).Some?
    ensures ParseQuickAddUrl(url).Some? ==>
      var q := ParseQuickAddUrl(url).value;
      var l := ParseVideoUrl(url).value;
      && l.(format := q.format) == q
      && (exists c: Captures :: c.rest != [] && AllDigits(c.season) && AllDigits(c.episode)
            && q == BuildInfo(c, true) && l == BuildInfo(c, false))
    ensures ParseVideoUrl(url).Some? && ParseQuickAddUrl(url).None? ==>
      ParseVideoUrl(url).value.languages == [] && ParseVideoUrl(url).value.format == []
  {
    var f := Filename(url);
    if Match1(f).Some? {
      var c := Match1(f).value;
      assert ParseQuickAddUrl(url) == Some(BuildInfo(c, true));
      assert ParseVideoUrl(url) == Some(BuildInfo(c, false));
    } else if Match2(f).Some? {
      var c := Match2(f).value;
      assert ParseQuickAddUrl(url) == Some(BuildInfo(c, true));
      assert ParseVideoUrl(url) == Some(BuildInfo(c, false));
    } else if Match3(f).Some? {
      assert ParseVideoUrl(url) == Some(BuildInfo(Match3(f).value, false));
      NothingInEmpty();
    }
  }

  /** An empty tag string mentions no language and no format. */
  lemma NothingInEmpty()
    ensures Languages(Join([], ".")) == []
    ensures FormatTags(Join([], "."), false) == []
  {
    var e := Join([], ".");
    assert e == [];
    assert !Contains(e, "hindi", true) && !Contains(e, "eng", true);
    assert !Contains(e, "x265", true) && !Contains(e, "10bit", true) && !Contains(e, "esub", true);
  }

  /** The filename `<name>.S<season>E<episode>.<quality>p.mkv`. */
  function BareEpisodeName(name: string, season: string, episode: string, quality: string): string
  {
    name + ".S" + season + "E" + episode + "." + quality + "p.mkv"
  }

  /** The URL's last path segment is the filename whenever the filename holds no `/`. */
  lemma FilenameOfPath(dir: string, f: string)
    requires '/' !in f
    ensures Filename(dir + "/" + f) == f
  {
    AfterLastAppend(dir, '/', f);
  }

  /** Where the characters of a bare episode filename come from. */
  lemma BareEpisodeLayout(name: string, season: string, episode: string, quality: string)
    ensures var f := BareEpisodeName(name, season, episode, quality);
      var k := |name|;
      var s := |season|;
      var e := |episode|;
      var q := |quality|;
      && |f| == k + 9 + s + e + q
      && f[..k] == name
      && f[k] == '.' && f[k + 1] == 'S'
      && f[k + 2..k + 2 + s] == season
      && f[k + 2 + s] == 'E'
      && f[k + 3 + s..k + 3 + s + e] == episode
      && f[k + 3 + s + e] == '.'
      && f[k + 4 + s + e..k + 4 + s + e + q] == quality
      && f[k + 4 + s + e + q..] == "p.mkv"
  {
  }

  /** In a bare episode filename the token right after the name is found. */
  lemma BareEpisodeTokenFound(name: string, season: string, episode: string, quality: string)
    requires |season| >= 1 && |episode| >= 1 && |quality| >= 1
    requires AllDigits(season) && AllDigits(episode) && AllDigits(quality)
    ensures var f := BareEpisodeName(name, season, episode, quality);
      TokenAt(f, |name|) == Some(Token(season, episode, quality + "p", |f| - 4))
  {
    var f := BareEpisodeName(name, season, episode, quality);
    var t := Token(season, episode, quality + "p", |f| - 4);
    BareEpisodeIsToken(name, season, episode, quality);
    TokenAtComplete(f, |name|, t);
  }

  /** The characters after the name of a bare episode filename have the token's shape. */
  lemma BareEpisodeIsToken(name: string, season: string, episode: string, quality: string)
    requires |season| >= 1 && |episode| >= 1 && |quality| >= 1
    requires AllDigits(season) && AllDigits(episode) && AllDigits(quality)
    ensures var f := BareEpisodeName(name, season, episode, quality);
      IsTokenAt(f, |name|, Token(season, episode, quality + "p", |f| - 4))
  {
    var f := BareEpisodeName(name, season, episode, quality);
    BareEpisodeLayout(name, season, episode, quality);
    var k := |name|;
    var s := |season|;
    var e := |episode|;
    var q := |quality|;
    assert f[k + 4 + s + e..|f| - 4] == quality + "p";
    ShapeFromParts(f, k, season, episode, quality);
  }

  /** The dots of a bare episode filename: after the name, before the quality, before `mkv`. */
  lemma {:induction false} BareEpisodeDots(name: string, season: string, episode: string, quality: string)
    requires '.' !in name
    requires AllDigits(season) && AllDigits(episode) && AllDigits(quality)
    ensures var f := BareEpisodeName(name, season, episode, quality);
      var d := |name| + 3 + |season| + |episode|;
      forall j :: 0 <= j < |f| && f[j] == '.' ==> j == |name| || j == d || j == |f| - 4
  {
    var f := BareEpisodeName(name, season, episode, quality);
    BareEpisodeLayout(name, season, episode, quality);
    var k := |name|;
    var s := |season|;
    var e := |episode|;
    var q := |quality|;
    forall j | 0 <= j < k ensures f[j] != '.' { assert f[j] == name[j]; }
    forall j | k + 2 <= j < k + 2 + s ensures f[j] != '.' { assert f[j] == season[j - k - 2]; }
    forall j | k + 3 + s <= j < k + 3 + s + e ensures f[j] != '.' { assert f[j] == episode[j - k - 3 - s]; }
    forall j | k + 4 + s + e <= j < k + 4 + s + e + q ensures f[j] != '.' { assert f[j] == quality[j - k - 4 - s - e]; }
    forall j | k + 4 + s + e + q <= j < |f| && j != |f| - 4 ensures f[j] != '.' {
      assert f[j] == "p.mkv"[j - k - 4 - s - e - q];
    }
  }

  /** ... and it is the only token there. */
  lemma {:induction false} BareEpisodeTokenUnique(name: string, season: string, episode: string, quality: string)
    requires '.' !in name
    requires AllDigits(season) && AllDigits(episode) && AllDigits(quality) && |quality| >= 1
    ensures var f := BareEpisodeName(name, season, episode, quality);
      forall j :: TokenAt(f, j).Some? ==> j == |name|
  {
    var f := BareEpisodeName(name, season, episode, quality);
    BareEpisodeLayout(name, season, episode, quality);
    BareEpisodeDots(name, season, episode, quality);
    var d := |name| + 3 + |season| + |episode|;
    assert f[d + 1] == quality[0];
    forall j: nat | TokenAt(f, j).Some? ensures j == |name| {
      var t := TokenAt(f, j).value;
      assert f[j] == '.' && Letter(f[j + 1], 'S', 's') && j + 8 <= |f|;
    }
  }

  lemma BareEpisodeFilename(dir: string, name: string, season: string, episode: string, quality: string)
    requires '/' !in name
    requires AllDigits(season) && AllDigits(episode) && AllDigits(quality)
    ensures var f := BareEpisodeName(name, season, episode, quality);
      Filename(dir + "/" + f) == f
  {
    var f := BareEpisodeName(name, season, episode, quality);
    BareEpisodeLayout(name, season, episode, quality);
    forall j | 0 <= j < |f| ensures f[j] != '/' {
      if j < |name| {
        assert f[j] == name[j];
      } else {
        NotSlashAfterName(name, season, episode, quality, j);
      }
    }
    FilenameOfPath(dir, f);
  }

  /** In a bare episode filename patterns 1 and 2 fail and pattern 3 captures the name, the numbers and the quality. */
  lemma {:induction false} BareEpisodeMatches(name: string, season: string, episode: string, quality: string)
    requires name != [] && AllAny(name) && '.' !in name
    requires |season| >= 1 && |episode| >= 1 && |quality| >= 1
    requires AllDigits(season) && AllDigits(episode) && AllDigits(quality)
    ensures var f := BareEpisodeName(name, season, episode, quality);
      && Match1(f).None? && Match2(f).None?
      && Match3(f) == Some(Captures(name, season, episode, quality + "p", []))
  {
    var f := BareEpisodeName(name, season, episode, quality);
    BareEpisodeNoPattern1(name, season, episode, quality);
    BareEpisodeNoPattern2(name, season, episode, quality);
    Split1First(f);
    Split2And3First(f);
    BareEpisodePattern3(name, season, episode, quality);
  }

  /** Pattern 3 captures a bare episode filename at its first dot. */
  lemma BareEpisodePattern3(name: string, season: string, episode: string, quality: string)
    requires name != [] && AllAny(name) && '.' !in name
    requires |season| >= 1 && |episode| >= 1 && |quality| >= 1
    requires AllDigits(season) && AllDigits(episode) && AllDigits(quality)
    ensures var f := BareEpisodeName(name, season, episode, quality);
      Match3(f) == Some(Captures(name, season, episode, quality + "p", []))
  {
    var f := BareEpisodeName(name, season, episode, quality);
    var k := |name|;
    BareEpisodeLayout(name, season, episode, quality);
    BareEpisodeTokenFound(name, season, episode, quality);
    BareEpisodeTokenUnique(name, season, episode, quality);
    assert Pattern3At(f, k) == Some(Captures(name, season, episode, quality + "p", []));
    Split2And3First(f);
    assert Split3(f) == Some(k) by {
      var m := Split3(f).value;
      assert TokenAt(f, m).Some?;
    }
  }

  /** A bare episode filename has no `-` prefix before the token that ends at `.mkv`, so pattern 1 fails. */
  lemma {:induction false} BareEpisodeNoPattern1(name: string, season: string, episode: string, quality: string)
    requires '.' !in name
    requires |season| >= 1 && |episode| >= 1 && |quality| >= 1
    requires AllDigits(season) && AllDigits(episode) && AllDigits(quality)
    ensures var f := BareEpisodeName(name, season, episode, quality);
      forall p, n, b :: Pattern1At(f, p, n, b).None?
  {
    var f := BareEpisodeName(name, season, episode, quality);
    BareEpisodeTokenFound(name, season, episode, quality);
    BareEpisodeTokenUnique(name, season, episode, quality);
    forall p: nat, n: nat, b: nat ensures Pattern1At(f, p, n, b).None? {
      Pattern1NeedsRoom(f, p, n, b);
    }
  }

  /** Pattern 1 needs at least ten characters after its token: two groups, the codec and `.mkv`. */
  lemma Pattern1NeedsRoom(f: string, p: nat, n: nat, b: nat)
    ensures Pattern1At(f, p, n, b).Some? ==>
      TokenAt(f, p + 1 + n).Some? && TokenAt(f, p + 1 + n).value.end + 10 <= |f|
  {
  }

  /** The only token of a bare episode filename ends right at `.mkv`, so pattern 2 finds no trailing group. */
  lemma {:induction false} BareEpisodeNoPattern2(name: string, season: string, episode: string, quality: string)
    requires '.' !in name
    requires |season| >= 1 && |episode| >= 1 && |quality| >= 1
    requires AllDigits(season) && AllDigits(episode) && AllDigits(quality)
    ensures var f := BareEpisodeName(name, season, episode, quality);
      forall n :: Pattern2At(f, n).None?
  {
    var f := BareEpisodeName(name, season, episode, quality);
    BareEpisodeTokenFound(name, season, episode, quality);
    BareEpisodeTokenUnique(name, season, episode, quality);
    forall n: nat ensures Pattern2At(f, n).None? {
      assert TokenAt(f, n).Some? ==> TokenAt(f, n).value.end == |f| - 4;
    }
  }

  /**
   * A URL whose filename is `<name>.S<season>E<episode>.<quality>p.mkv`,
   * with no dot in the name, is understood by the library copy through
   * pattern 3 (no languages, no format), and rejected by the quick-add copy.
   */
  lemma {:induction false} BareEpisodeParses(dir: string, name: string, season: string, episode: string, quality: string)
    requires name != [] && AllAny(name) && '.' !in name && '/' !in name
    requires |season| >= 1 && |episode| >= 1 && |quality| >= 1
    requires AllDigits(season) && AllDigits(episode) && AllDigits(quality)
    ensures var url := dir + "/" + BareEpisodeName(name, season, episode, quality);
      ParseVideoUrl(url) == Some(ParsedVideoInfo(
        CleanSeriesName(name), "S" + PadStart(season, 2, '0'), "E" + PadStart(episode, 2, '0'),
        quality + "p", [], []))
    ensures ParseQuickAddUrl(dir + "/" + BareEpisodeName(name, season, episode, quality)) == None
  {
    var url := dir + "/" + BareEpisodeName(name, season, episode, quality);
    var c := Captures(name, season, episode, quality + "p", []);
    BareEpisodeFilename(dir, name, season, episode, quality);
    BareEpisodeMatches(name, season, episode, quality);
    assert ParseVideoUrl(url) == Some(BuildInfo(c, false));
    NothingInEmpty();
    assert Join(FormatTags(Join([], "."), false), ", ") == [];
  }

  lemma NotSlashAfterName(name: string, season: string, episode: string, quality: string, j: nat)
    requires AllDigits(season) && AllDigits(episode) && AllDigits(quality)
    requires |name| <= j < |BareEpisodeName(name, season, episode, quality)|
    ensures BareEpisodeName(name, season, episode, quality)[j] != '/'
  {
    var f := BareEpisodeName(name, season, episode, quality);
    BareEpisodeLayout(name, season, episode, quality);
    var k := |name|;
    var s := |season|;
    var e := |episode|;
    var q := |quality|;
    if k + 2 <= j < k + 2 + s {
      assert f[j] == season[j - k - 2];
    } else if k + 3 + s <= j < k + 3 + s + e {
      assert f[j] == episode[j - k - 3 - s];
    } else if k + 4 + s + e <= j < k + 4 + s + e + q {
      assert f[j] == quality[j - k - 4 - s - e];
    } else if k + 4 + s + e + q <= j {
      assert f[j] == "p.mkv"[j - k - 4 - s - e - q];
    }
  }

  // ---------------------------------------------------------------------------
  // A tagged episode filename

  /** The filename `<name>.S<season>E<episode>.<quality>p.<tags>.mkv`. */
  function TaggedEpisodeName(name: string, season: string, episode: string, quality: string, tags: string): string
  {
    name + ".S" + season + "E" + episode + "." + quality + "p." + tags + ".mkv"
  }

  /** Where the characters of a tagged episode filename come from, for a filename f. */
  ghost predicate TaggedLayout(f: string, name: string, season: string, episode: string, quality: string, tags: string)
  {
    var k := |name|;
    var s := |season|;
    var e := |episode|;
    var q := |quality|;
    && |f| == k + 10 + s + e + q + |tags|
    && f[..k] == name
    && f[k] == '.' && f[k + 1] == 'S'
    && f[k + 2..k + 2 + s] == season
    && f[k + 2 + s] == 'E'
    && f[k + 3 + s..k + 3 + s + e] == episode
    && f[k + 3 + s + e] == '.'
    && f[k + 4 + s + e..k + 5 + s + e + q] == quality + "p"
    && f[k + 5 + s + e + q] == '.'
    && f[k + 6 + s + e + q..|f| - 4] == tags
    && f[|f| - 4..] == ".mkv"
  }

  /** The tagged episode filename has that layout. */
  lemma TaggedEpisodeLayout(name: string, season: string, episode: string, quality: string, tags: string)
    ensures TaggedLayout(TaggedEpisodeName(name, season, episode, quality, tags), name, season, episode, quality, tags)
  {
    var f := TaggedEpisodeName(name, season, episode, quality, tags);
    assert f == name + ".S" + season + "E" + episode + "." + (quality + "p") + "." + tags + ".mkv";
  }

  /** Three digit strings laid out as `.S<season>E<episode>.<quality>p` make a token's shape. */
  lemma ShapeFromParts(f: string, k: nat, season: string, episode: string, quality: string)
    requires |season| >= 1 && |episode| >= 1 && |quality| >= 1
    requires AllDigits(season) && AllDigits(episode) && AllDigits(quality)
    requires var s := |season|; var e := |episode|; var q := |quality|;
      && k + 5 + s + e + q <= |f|
      && f[k] == '.' && f[k + 1] == 'S'
      && f[k + 2..k + 2 + s] == season && f[k + 2 + s] == 'E'
      && f[k + 3 + s..k + 3 + s + e] == episode && f[k + 3 + s + e] == '.'
      && f[k + 4 + s + e..k + 5 + s + e + q] == quality + "p"
    ensures TokenShape(f, k, |season|, |episode|, |quality|)
  {
    var s, e, q := |season|, |episode|, |quality|;
    var qp := f[k + 4 + s + e..k + 5 + s + e + q];
    DigitsOfSlice(f, k + 2, season);
    DigitsOfSlice(f, k + 3 + s, episode);
    forall j | k + 4 + s + e <= j < k + 4 + s + e + q ensures IsDigit(f[j]) {
      assert f[j] == qp[j - (k + 4 + s + e)] == quality[j - (k + 4 + s + e)];
    }
    assert f[k + 4 + s + e + q] == qp[q] == 'p';
  }

  /** A token laid out from its three digit strings is found at its start. */
  lemma TokenFromParts(f: string, k: nat, season: string, episode: string, quality: string)
    requires |season| >= 1 && |episode| >= 1 && |quality| >= 1
    requires AllDigits(season) && AllDigits(episode) && AllDigits(quality)
    requires var s := |season|; var e := |episode|; var q := |quality|;
      && k + 5 + s + e + q <= |f|
      && f[k] == '.' && f[k + 1] == 'S'
      && f[k + 2..k + 2 + s] == season && f[k + 2 + s] == 'E'
      && f[k + 3 + s..k + 3 + s + e] == episode && f[k + 3 + s + e] == '.'
      && f[k + 4 + s + e..k + 5 + s + e + q] == quality + "p"
    ensures TokenAt(f, k) == Some(Token(season, episode, quality + "p", k + 5 + |season| + |episode| + |quality|))
  {
    ShapeFromParts(f, k, season, episode, quality);
    TokenLengthsComplete(f, k, |season|, |episode|, |quality|);
    TokenAtFromLengths(f, k, |season|, |episode|, |quality|);
  }

  /** Pattern 1 needs a `-` in the filename. */
  lemma Pattern1Dash(f: string, p: nat, n: nat, b: nat)
    ensures Pattern1At(f, p, n, b).Some? ==> p < |f| && f[p] == '-'
  {
  }

  /** Pattern 2 matches a filename with the tagged episode layout and no `-`. */
  lemma TaggedLayoutMatches(f: string, name: string, season: string, episode: string, quality: string, tags: string)
    requires TaggedLayout(f, name, season, episode, quality, tags) && '-' !in f
    requires name != [] && AllAny(name) && '.' !in name
    requires |season| >= 1 && |episode| >= 1 && |quality| >= 1
    requires AllDigits(season) && AllDigits(episode) && AllDigits(quality)
    requires tags != [] && AllAny(tags)
    ensures Match1(f).None?
    ensures Match2(f) == Some(Captures(name, season, episode, quality + "p", [tags]))
  {
    var k := |name|;
    NoDashNoPattern1(f);
    TaggedLayoutPattern2(f, name, season, episode, quality, tags);
    Split2And3First(f);
    NoTokenInName(f, name);
    assert Split2(f) == Some(k) by {
      var m := Split2(f).value;
      assert TokenAt(f, m).Some?;
    }
  }

  /** Pattern 2 with the name's length captures a filename with the tagged episode layout. */
  lemma TaggedLayoutPattern2(f: string, name: string, season: string, episode: string, quality: string, tags: string)
    requires TaggedLayout(f, name, season, episode, quality, tags)
    requires name != [] && AllAny(name)
    requires |season| >= 1 && |episode| >= 1 && |quality| >= 1
    requires AllDigits(season) && AllDigits(episode) && AllDigits(quality)
    requires tags != [] && AllAny(tags)
    ensures Pattern2At(f, |name|) == Some(Captures(name, season, episode, quality + "p", [tags]))
  {
    TokenFromParts(f, |name|, season, episode, quality);
    var mkv := f[|f| - 4..];
    assert f[|f| - 4] == mkv[0] && f[|f| - 3] == mkv[1] && f[|f| - 2] == mkv[2] && f[|f| - 1] == mkv[3];
    assert EndsWithMkv(f);
  }

  /** Pattern 2 matches a tagged episode filename with the name as its first group and the tags as its last. */
  lemma TaggedEpisodeMatches(name: string, season: string, episode: string, quality: string, tags: string)
    requires name != [] && AllAny(name) && '.' !in name && '-' !in name
    requires |season| >= 1 && |episode| >= 1 && |quality| >= 1
    requires AllDigits(season) && AllDigits(episode) && AllDigits(quality)
    requires tags != [] && AllAny(tags) && '-' !in tags
    ensures var f := TaggedEpisodeName(name, season, episode, quality, tags);
      && Match1(f).None?
      && Match2(f) == Some(Captures(name, season, episode, quality + "p", [tags]))
  {
    var f := TaggedEpisodeName(name, season, episode, quality, tags);
    TaggedEpisodeLayout(name, season, episode, quality, tags);
    assert '-' !in f;
    TaggedLayoutMatches(f, name, season, episode, quality, tags);
  }

  /** Without a `-` in the filename pattern 1 fails. */
  lemma NoDashNoPattern1(f: string)
    requires '-' !in f
    ensures Match1(f).None?
  {
    forall p: nat, n: nat, b: nat ensures Pattern1At(f, p, n, b).None? {
      Pattern1Dash(f, p, n, b);
    }
    Split1First(f);
  }

  /** No token starts inside a name without dots. */
  lemma NoTokenInName(f: string, name: string)
    requires |name| <= |f| && f[..|name|] == name && '.' !in name
    ensures forall j :: 0 <= j < |name| ==> TokenAt(f, j).None?
  {
    forall j | 0 <= j < |name| ensures TokenAt(f, j).None? {
      assert f[j] == name[j];
    }
  }

  /**
   * A URL whose filename is `<name>.S<season>E<episode>.<quality>p.<tags>.mkv`,
   * with no dot and no dash in the name and no dash in the tags, is
   * understood by both copies through pattern 2: the languages and formats
   * are those the tags name, and only the quick-add copy can add `x264`.
   */
  lemma {:induction false} TaggedEpisodeParses(dir: string, name: string, season: string, episode: string, quality: string, tags: string)
    requires name != [] && AllAny(name) && '.' !in name && '-' !in name && '/' !in name
    requires |season| >= 1 && |episode| >= 1 && |quality| >= 1
    requires AllDigits(season) && AllDigits(episode) && AllDigits(quality)
    requires tags != [] && AllAny(tags) && '-' !in tags && '/' !in tags
    ensures var url := dir + "/" + TaggedEpisodeName(name, season, episode, quality, tags);
      ParseVideoUrl(url) == Some(ParsedVideoInfo(
        CleanSeriesName(name), "S" + PadStart(season, 2, '0'), "E" + PadStart(episode, 2, '0'),
        quality + "p", Languages(tags), Join(FormatTags(tags, false), ", ")))
    ensures var url := dir + "/" + TaggedEpisodeName(name, season, episode, quality, tags);
      ParseQuickAddUrl(url) == Some(ParsedVideoInfo(
        CleanSeriesName(name), "S" + PadStart(season, 2, '0'), "E" + PadStart(episode, 2, '0'),
        quality + "p", Languages(tags), Join(FormatTags(tags, true), ", ")))
  {
    var f := TaggedEpisodeName(name, season, episode, quality, tags);
    var url := dir + "/" + f;
    var c := Captures(name, season, episode, quality + "p", [tags]);
    assert '/' !in f;
    FilenameOfPath(dir, f);
    TaggedEpisodeMatches(name, season, episode, quality, tags);
    assert ParseVideoUrl(url) == Some(BuildInfo(c, false));
    assert ParseQuickAddUrl(url) == Some(BuildInfo(c, true));
  }

  /** No white space and no separator: a name the cleaning leaves alone. */
  predicate PlainName(s: string)
  {
    forall i :: 0 <= i < |s| ==> !IsWhitespace(s[i]) && s[i] != '.' && s[i] != '-' && s[i] != '_'
  }

  lemma {:induction false} CollapsePlain(s: string)
    requires PlainName(s)
    ensures CollapseWhitespace(s) == s
    decreases |s|
  {
    if s != [] {
      assert PlainName(s[1..]) by {
        forall i | 0 <= i < |s| - 1 ensures !IsWhitespace(s[1..][i]) && s[1..][i] != '.' && s[1..][i] != '-' && s[1..][i] != '_' {
          assert s[1..][i] == s[i + 1];
        }
      }
      CollapsePlain(s[1..]);
      assert CollapseWhitespace(s) == [s[0]] + s[1..];
    }
  }

  /** A name without white space or separators is its own cleaned series name. */
  lemma CleanPlainName(name: string)
    requires PlainName(name)
    ensures CleanSeriesName(name) == name
  {
    assert SeparatorsToSpaces(name) == name;
    CollapsePlain(name);
    assert TrimStart(name) == name;
    assert TrimEnd(name) == name;
  }
}
