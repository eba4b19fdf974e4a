/**
 * The JavaScript string and number primitives the catalog code is built on:
 * character classes of regular expressions, `split(..).pop()`, `padStart`,
 * `trim`, `includes`/`indexOf`, `replace` of a literal, `Array.join`,
 * `Number.prototype.toString` on integers and `Number.parseInt`.
 */
module JsText {

  datatype Option<+T> = None | Some(value: T)

  /** A JavaScript number as far as this application produces one: an integer or NaN. */
  datatype Num = NaN | Int(value: int)

  /** `n || d` on a number: 0 and NaN are falsy. */
  function OrDefault(n: Num, d: int): (r: int)
    ensures r == d || (n.Int? && n.value == r && r != 0)
    ensures n.Int? && n.value != 0 ==> r == n.value
  {
    if n.Int? && n.value != 0 then n.value else d
  }

  // ---------------------------------------------------------------------------
  // Characters

  predicate IsDigit(c: char) { '0' <= c <= '9' }
  predicate IsAsciiUpper(c: char) { 'A' <= c <= 'Z' }
  predicate IsAsciiLower(c: char) { 'a' <= c <= 'z' }
  predicate IsAsciiAlnum(c: char) { IsDigit(c) || IsAsciiUpper(c) || IsAsciiLower(c) }

  function UpperAscii(c: char): char
  {
    if IsAsciiLower(c) then (c as int - 32) as char else c
  }

  function LowerAscii(c: char): char
  {
    if IsAsciiUpper(c) then (c as int + 32) as char else c
  }

  function LowerAsciiString(s: string): (r: string)
    ensures |r| == |s|
    ensures forall i :: 0 <= i < |s| ==> r[i] == LowerAscii(s[i])
  {
    seq(|s|, i requires 0 <= i < |s| => LowerAscii(s[i]))
  }

  /**
   * Equality of two characters under the `i` flag of a regular expression
   * without the `u` flag, when one of them is an ASCII pattern character:
   * such a regular expression never folds a character above U+007F onto an
   * ASCII one, so ASCII case folding is exact.
   */
  predicate SameCI(c: char, d: char) { UpperAscii(c) == UpperAscii(d) }

  /** The line terminators, which `.` does not match without the `s` flag. */
  predicate IsLineTerminator(c: char)
  {
    c == '\n' || c == '\r' || c == '\U{2028}' || c == '\U{2029}'
  }

  /** Characters matched by `.` in a regular expression without the `s` flag. */
  predicate AllAny(s: string)
  {
    forall i :: 0 <= i < |s| ==> !IsLineTerminator(s[i])
  }

  /** Characters matched by `\s`, which are also those `String.prototype.trim` removes. */
  predicate IsWhitespace(c: char)
  {
    || c == '\t' || c == '\n' || c == '\U{B}' || c == '\U{C}' || c == '\r' || c == ' '
    || c == '\U{A0}' || c == '\U{1680}' || ('\U{2000}' <= c <= '\U{200A}')
    || c == '\U{2028}' || c == '\U{2029}' || c == '\U{202F}' || c == '\U{205F}'
    || c == '\U{3000}' || c == '\U{FEFF}'
  }

  predicate AllDigits(s: string)
  {
    forall i :: 0 <= i < |s| ==> IsDigit(s[i])
  }

  // ---------------------------------------------------------------------------
  // Decimal digits and integers

  function DigitValue(c: char): nat
    requires IsDigit(c)
  {
    c as int - '0' as int
  }

  function DigitChar(d: nat): (c: char)
    requires d < 10
    ensures IsDigit(c) && DigitValue(c) == d
  {
    ('0' as int + d) as char
  }

  /** The value of a string of decimal digits, leading zeros allowed. */
  function DigitsValue(s: string): nat
    requires AllDigits(s)
  {
    if s == [] then 0 else DigitsValue(s[..|s| - 1]) * 10 + DigitValue(s[|s| - 1])
  }

  /** Length of the longest run of digits that starts at index i (greedy `\d+` stops there). */
  function DigitRun(s: string, i: nat): (n: nat)
    requires i <= |s|
    ensures i + n <= |s|
    ensures forall k :: i <= k < i + n ==> IsDigit(s[k])
    ensures i + n < |s| ==> !IsDigit(s[i + n])
    decreases |s| - i
  {
    if i < |s| && IsDigit(s[i]) then 1 + DigitRun(s, i + 1) else 0
  }

  /** `n.toString()` for a natural number. */
  function NatToString(n: nat): (r: string)
    ensures |r| >= 1 && AllDigits(r)
    ensures r[0] == '0' ==> n == 0
    decreases n
  {
    if n < 10 then [DigitChar(n)] else NatToString(n / 10) + [DigitChar(n % 10)]
  }

  /** `n.toString()` for an integer. */
  function IntToString(n: int): (r: string)
    ensures |r| >= 1
    ensures n >= 0 ==> AllDigits(r)
    ensures n < 0 ==> r[0] == '-' && AllDigits(r[1..])
  {
    if n >= 0 then NatToString(n) else "-" + NatToString(-n)
  }

  lemma {:induction false} NatToStringValue(n: nat)
    ensures DigitsValue(NatToString(n)) == n
    decreases n
  {
    if n >= 10 {
      NatToStringValue(n / 10);
      var r := NatToString(n);
      assert r[..|r| - 1] == NatToString(n / 10);
    }
  }

  // ---------------------------------------------------------------------------
  // Arithmetic

  /** JavaScript's `a % b` for b > 0: the remainder takes the sign of a. */
  function JsRem(a: int, b: int): (r: int)
    requires b > 0
  {
    if a >= 0 then a % b else -((-a) % b)
  }

  /** Division is unique: t = d * q + r with 0 <= r < d fixes the quotient and the remainder. */
  lemma DivMod(t: int, d: int, q: int, r: int)
    requires d > 0 && 0 <= r < d && t == d * q + r
    ensures t / d == q && t % d == r
  {
    var q', r' := t / d, t % d;
    assert d * (q' - q) == r - r';
    if q' > q {
      MulAtLeast(d, q' - q);
    } else if q' < q {
      MulAtLeast(d, q - q');
    }
  }

  lemma MulAtLeast(d: int, k: int)
    requires d > 0 && k >= 1
    ensures d * k >= d
  { }

  /** `s.padStart(n, c)`: left-pads, never truncates. */
  function PadStart(s: string, n: nat, c: char): (r: string)
    ensures |r| == if |s| >= n then |s| else n
    ensures r[|r| - |s|..] == s
    ensures forall i :: 0 <= i < |r| - |s| ==> r[i] == c
  {
    if |s| >= n then s else seq(n - |s|, _ => c) + s
  }

  /** Zero padding does not change the value of a digit string. */
  lemma {:induction false} ZeroPadValue(z: string, s: string)
    requires forall i :: 0 <= i < |z| ==> z[i] == '0'
    requires AllDigits(s)
    ensures AllDigits(z + s) && DigitsValue(z + s) == DigitsValue(s)
    decreases |s|
  {
    assert AllDigits(z + s);
    if s == [] {
      assert z + s == z;
      ZerosValue(z);
    } else {
      ZeroPadValue(z, s[..|s| - 1]);
      assert (z + s)[..|z + s| - 1] == z + s[..|s| - 1];
    }
  }

  lemma {:induction false} ZerosValue(z: string)
    requires forall i :: 0 <= i < |z| ==> z[i] == '0'
    ensures AllDigits(z) && DigitsValue(z) == 0
    decreases |z|
  {
    if z != [] {
      ZerosValue(z[..|z| - 1]);
    }
  }

  /** `s.padStart(2, "0")` on a digit string keeps its digits and its value. */
  lemma PadStartDigits(s: string)
    requires AllDigits(s)
    ensures AllDigits(PadStart(s, 2, '0'))
    ensures DigitsValue(PadStart(s, 2, '0')) == DigitsValue(s)
  {
    var r := PadStart(s, 2, '0');
    if |s| < 2 {
      var z := r[..|r| - |s|];
      assert r == z + s;
      ZeroPadValue(z, s);
    }
  }

  // ---------------------------------------------------------------------------
  // Number.parseInt

  predicate IsHexDigit(c: char) { IsDigit(c) || 'a' <= c <= 'f' || 'A' <= c <= 'F' }

  function HexDigitValue(c: char): nat
    requires IsHexDigit(c)
  {
    if IsDigit(c) then DigitValue(c)
    else if 'a' <= c <= 'f' then c as int - 'a' as int + 10
    else c as int - 'A' as int + 10
  }

  /** Value of the longest run of hexadecimal digits at the start of s, with its length. */
  function HexPrefix(s: string): (r: (nat, nat))
    ensures r.1 <= |s|
    decreases |s|
  {
    HexPrefixFrom(s, 0, 0)
  }

  function HexPrefixFrom(s: string, i: nat, acc: nat): (r: (nat, nat))
    requires i <= |s|
    ensures i <= r.1 <= |s|
    decreases |s| - i
  {
    if i < |s| && IsHexDigit(s[i]) then HexPrefixFrom(s, i + 1, acc * 16 + HexDigitValue(s[i]))
    else (acc, i)
  }

  /**
   * `Number.parseInt(s)` without a radix: leading white space is skipped, one
   * sign is read, a `0x`/`0X` prefix selects base 16, and the longest digit
   * prefix is converted; no digit at all gives NaN.
   */
  function ParseInt(s: string): Num
  {
    ParseSigned(TrimStart(s))
  }

  /** One optional sign, then the magnitude; a `-` negates it. */
  function ParseSigned(t: string): Num
  {
    if |t| > 0 && t[0] == '-' then
      match ParseMagnitude(t[1..])
      case NaN => NaN
      case Int(v) => Int(-v)
    else if |t| > 0 && t[0] == '+' then ParseMagnitude(t[1..])
    else ParseMagnitude(t)
  }

  /** A `0x`/`0X` prefix and the longest hexadecimal digit run, or the longest decimal digit run; no digit gives NaN. */
  function ParseMagnitude(u: string): Num
  {
    if |u| >= 2 && u[0] == '0' && (u[1] == 'x' || u[1] == 'X') then
      var h := HexPrefix(u[2..]);
      if h.1 == 0 then NaN else Int(h.0)
    else
      var d := DigitRun(u, 0);
      assert AllDigits(u[..d]);
      if d == 0 then NaN else Int(DigitsValue(u[..d]))
  }

  /** The digit run from i of a string of digits reaches its end. */
  lemma {:induction false} DigitRunToEnd(s: string, i: nat)
    requires i <= |s| && AllDigits(s)
    ensures DigitRun(s, i) == |s| - i
    decreases |s| - i
  {
    if i < |s| {
      DigitRunToEnd(s, i + 1);
    }
  }

  /** The magnitude of a non-empty digit string is its decimal value. */
  lemma MagnitudeOfDigits(s: string)
    requires |s| >= 1 && AllDigits(s)
    ensures ParseMagnitude(s) == Int(DigitsValue(s))
  {
    assert |s| >= 2 ==> IsDigit(s[1]);
    DigitRunToEnd(s, 0);
    assert s[..|s|] == s;
  }

  /** A text that does not start with white space is not trimmed. */
  lemma TrimStartKeeps(s: string)
    requires s != [] && !IsWhitespace(s[0])
    ensures TrimStart(s) == s
  {
  }

  /** Without a sign the value is the magnitude. */
  lemma SignlessMagnitude(t: string)
    requires t != [] && t[0] != '-' && t[0] != '+'
    ensures ParseSigned(t) == ParseMagnitude(t)
  {
  }

  /** parseInt of a non-empty digit string is its decimal value. */
  lemma ParseIntOfDigits(s: string)
    requires |s| >= 1 && AllDigits(s)
    ensures ParseInt(s) == Int(DigitsValue(s))
  {
    assert IsDigit(s[0]);
    TrimStartKeeps(s);
    SignlessMagnitude(s);
    MagnitudeOfDigits(s);
  }

  /** parseInt reads back what toString writes, for every natural number. */
  lemma ParseIntNatToString(n: nat)
    ensures ParseInt(NatToString(n)) == Int(n)
  {
    ParseIntOfDigits(NatToString(n));
    NatToStringValue(n);
  }

  // ---------------------------------------------------------------------------
  // Trimming

  /** Removes leading white space. */
  function TrimStart(s: string): (r: string)
    ensures |r| <= |s| && r == s[|s| - |r|..]
    ensures forall i :: 0 <= i < |s| - |r| ==> IsWhitespace(s[i])
    ensures r != [] ==> !IsWhitespace(r[0])
    decreases |s|
  {
    if s != [] && IsWhitespace(s[0]) then TrimStart(s[1..]) else s
  }

  /** Removes trailing white space. */
  function TrimEnd(s: string): (r: string)
    ensures |r| <= |s| && r == s[..|r|]
    ensures forall i :: |r| <= i < |s| ==> IsWhitespace(s[i])
    ensures r != [] ==> !IsWhitespace(r[|r| - 1])
    decreases |s|
  {
    if s != [] && IsWhitespace(s[|s| - 1]) then TrimEnd(s[..|s| - 1]) else s
  }

  /** Number of leading white-space characters. */
  function LeadingWhitespace(s: string): (k: nat)
    ensures k <= |s|
  {
    |s| - |TrimStart(s)|
  }

  /** `String.prototype.trim`: a contiguous slice of s with no white space at either end. */
  function Trim(s: string): (r: string)
    ensures r != [] ==> !IsWhitespace(r[0]) && !IsWhitespace(r[|r| - 1])
    ensures LeadingWhitespace(s) + |r| <= |s|
    ensures r == s[LeadingWhitespace(s)..LeadingWhitespace(s) + |r|]
  {
    var t := TrimStart(s);
    var r := TrimEnd(t);
    assert r == s[|s| - |t|..|s| - |t| + |r|];
    r
  }

  /** A string is blank when its trimmed form is empty (`!s.trim()`). */
  predicate IsBlank(s: string) { Trim(s) == [] }

  lemma BlankIffAllWhitespace(s: string)
    ensures IsBlank(s) <==> forall i :: 0 <= i < |s| ==> IsWhitespace(s[i])
  {
    var t := TrimStart(s);
    assert t != [] ==> t[0] == s[|s| - |t|];
    assert t != [] ==> TrimEnd(t) != [];
  }

  /** A string with one non-white-space character is not blank. */
  lemma NotBlankAt(s: string, i: nat)
    requires i < |s| && !IsWhitespace(s[i])
    ensures !IsBlank(s)
  {
    BlankIffAllWhitespace(s);
  }

  // ---------------------------------------------------------------------------
  // Searching and replacing literal text

  /** The pattern occurs at index i (case-insensitively when ci). */
  predicate MatchesAt(s: string, i: nat, pat: string, ci: bool)
  {
    i + |pat| <= |s| &&
    forall k :: 0 <= k < |pat| ==> if ci then SameCI(s[i + k], pat[k]) else s[i + k] == pat[k]
  }

  /** Index of the first occurrence of pat at or after index from. */
  function IndexOf(s: string, pat: string, ci: bool, from: nat): (r: Option<nat>)
    ensures r.Some? ==> from <= r.value && r.value + |pat| <= |s|
    decreases |s| - from
  {
    if from + |pat| > |s| then None
    else if MatchesAt(s, from, pat, ci) then Some(from)
    else IndexOf(s, pat, ci, from + 1)
  }

  /** IndexOf finds an occurrence with none before it, and finds nothing only when there is none. */
  lemma {:induction false} IndexOfSpec(s: string, pat: string, ci: bool, from: nat)
    ensures IndexOf(s, pat, ci, from).Some? ==> MatchesAt(s, IndexOf(s, pat, ci, from).value, pat, ci)
    ensures IndexOf(s, pat, ci, from).Some? ==>
      forall j :: from <= j < IndexOf(s, pat, ci, from).value ==> !MatchesAt(s, j, pat, ci)
    ensures IndexOf(s, pat, ci, from).None? ==> forall j :: from <= j ==> !MatchesAt(s, j, pat, ci)
    decreases |s| - from
  {
    if from + |pat| <= |s| && !MatchesAt(s, from, pat, ci) {
      IndexOfSpec(s, pat, ci, from + 1);
    }
  }

  /** A pattern occurs where it was put. */
  lemma MatchesAtMiddle(a: string, pat: string, b: string, ci: bool)
    ensures MatchesAt(a + pat + b, |a|, pat, ci)
  {
    var s := a + pat + b;
    forall k | 0 <= k < |pat|
      ensures s[|a| + k] == pat[k]
    {
    }
  }

  /** An occurrence with none before it is the one `IndexOf` finds. */
  lemma IndexOfFirst(s: string, pat: string, ci: bool, i: nat)
    requires MatchesAt(s, i, pat, ci)
    requires forall j :: 0 <= j < i ==> !MatchesAt(s, j, pat, ci)
    ensures IndexOf(s, pat, ci, 0) == Some(i)
  {
    IndexOfSpec(s, pat, ci, 0);
    var r := IndexOf(s, pat, ci, 0);
    assert r.Some?;
    assert !(r.value < i);
  }

  /** `s.includes(pat)`, or `/pat/i.test(s)` when ci. */
  predicate Contains(s: string, pat: string, ci: bool)
  {
    IndexOf(s, pat, ci, 0).Some?
  }

  lemma ContainsIff(s: string, pat: string, ci: bool)
    ensures Contains(s, pat, ci) <==> exists j :: 0 <= j <= |s| - |pat| && MatchesAt(s, j, pat, ci)
  {
    IndexOfSpec(s, pat, ci, 0);
    if Contains(s, pat, ci) {
      var j := IndexOf(s, pat, ci, 0).value;
      assert 0 <= j <= |s| - |pat| && MatchesAt(s, j, pat, ci);
    }
  }

  /** An occurrence at a known index makes `includes` true. */
  lemma ContainsAt(s: string, pat: string, ci: bool, j: nat)
    requires MatchesAt(s, j, pat, ci)
    ensures Contains(s, pat, ci)
  {
    IndexOfSpec(s, pat, ci, 0);
  }

  /** A case-sensitive occurrence is also a case-insensitive one. */
  lemma ContainsCaseInsensitively(s: string, pat: string)
    requires Contains(s, pat, false)
    ensures Contains(s, pat, true)
  {
    IndexOfSpec(s, pat, false, 0);
    var j := IndexOf(s, pat, false, 0).value;
    assert MatchesAt(s, j, pat, true);
    ContainsAt(s, pat, true, j);
  }

  /**
   * `s.replace(pat, rep)` with a string pattern, or with a regular expression
   * without the `g` flag whose source is the literal pat: only the first
   * occurrence is replaced.
   */
  function ReplaceFirst(s: string, pat: string, rep: string, ci: bool): (r: string)
  {
    match IndexOf(s, pat, ci, 0)
    case None => s
    case Some(i) => s[..i] + rep + s[i + |pat|..]
  }

  /** Without an occurrence nothing changes; otherwise the first occurrence, with none before it, is replaced. */
  lemma ReplaceFirstSpec(s: string, pat: string, rep: string, ci: bool)
    ensures !Contains(s, pat, ci) ==> ReplaceFirst(s, pat, rep, ci) == s
    ensures Contains(s, pat, ci) ==>
      var i := IndexOf(s, pat, ci, 0).value;
      && MatchesAt(s, i, pat, ci)
      && ReplaceFirst(s, pat, rep, ci) == s[..i] + rep + s[i + |pat|..]
      && (forall j :: 0 <= j < i ==> !MatchesAt(s, j, pat, ci))
  {
    IndexOfSpec(s, pat, ci, 0);
  }

  /** After a replacement the replacement text occurs. */
  lemma ReplaceFirstShowsRep(s: string, pat: string, rep: string, ci: bool)
    requires Contains(s, pat, ci)
    ensures Contains(ReplaceFirst(s, pat, rep, ci), rep, false)
  {
    var i := IndexOf(s, pat, ci, 0).value;
    var r := s[..i] + rep + s[i + |pat|..];
    assert ReplaceFirst(s, pat, rep, ci) == r;
    MatchesAtMiddle(s[..i], rep, s[i + |pat|..], false);
    ContainsAt(r, rep, false, i);
  }

  /** Taking one more element of a list extends the prefix by that element. */
  lemma PrefixGrows<T>(xs: seq<T>, n: nat)
    requires n < |xs|
    ensures xs[..n + 1] == xs[..n] + [xs[n]]
  {
  }

  /** Appending one element after a concatenation extends its second part. */
  lemma AppendAfterConcat<T>(a: seq<T>, b: seq<T>, x: T)
    ensures (a + b) + [x] == a + (b + [x])
  {
  }

  lemma AssociateRight<T>(x: seq<T>, a: seq<T>, b: seq<T>, c: seq<T>)
    requires x == a + (b + c)
    ensures x == a + b + c
  { }

  lemma Regroup<T>(x: seq<T>, a: seq<T>, b: seq<T>, c: seq<T>, d: seq<T>)
    requires x == a + (b + c) + d
    ensures x == a + b + (c + d)
  { }

  /** `xs.slice(start, end)`: negative bounds count from the end, and bounds are clamped to the length. */
  function JsSlice<T>(xs: seq<T>, start: int, end: int): (r: seq<T>)
    ensures 0 <= start <= end <= |xs| ==> r == xs[start..end]
    ensures xs == [] ==> r == []
  {
    var s := if start < 0 then (if |xs| + start < 0 then 0 else |xs| + start) else (if start > |xs| then |xs| else start);
    var e := if end < 0 then (if |xs| + end < 0 then 0 else |xs| + end) else (if end > |xs| then |xs| else end);
    if s < e then xs[s..e] else []
  }

  /** `parts.join(sep)`. */
  function Join(parts: seq<string>, sep: string): (r: string)
    ensures parts == [] ==> r == []
    ensures |parts| == 1 ==> r == parts[0]
  {
    if parts == [] then []
    else if |parts| == 1 then parts[0]
    else parts[0] + sep + Join(parts[1..], sep)
  }

  // ---------------------------------------------------------------------------
  // Splitting

  /** `s.split(sep).pop()`: the text after the last separator, or s itself. */
  function AfterLast(s: string, sep: char): (r: string)
    ensures |r| <= |s|
    decreases |s|
  {
    if s == [] then []
    else if s[|s| - 1] == sep then []
    else AfterLast(s[..|s| - 1], sep) + [s[|s| - 1]]
  }

  /** The piece after the last separator is a suffix free of separators, preceded by one unless it is all of s. */
  lemma {:induction false} AfterLastSpec(s: string, sep: char)
    ensures var r := AfterLast(s, sep);
      && r == s[|s| - |r|..] && sep !in r
      && (|r| < |s| ==> s[|s| - |r| - 1] == sep)
    decreases |s|
  {
    if s != [] && s[|s| - 1] != sep {
      var init := s[..|s| - 1];
      AfterLastSpec(init, sep);
      var r := AfterLast(init, sep);
      assert init[|init| - |r|..] + [s[|s| - 1]] == s[|s| - |r| - 1..];
    }
  }

  /** Whatever precedes the last separator, the piece after it is returned. */
  lemma {:induction false} AfterLastAppend(a: string, sep: char, b: string)
    requires sep !in b
    ensures AfterLast(a + [sep] + b, sep) == b
    decreases |b|
  {
    var s := a + [sep] + b;
    if b != [] {
      assert b[|b| - 1] in b;
      assert s[..|s| - 1] == a + [sep] + b[..|b| - 1];
      AfterLastAppend(a, sep, b[..|b| - 1]);
    }
  }
}
