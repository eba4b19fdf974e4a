/**
 * The web player's pure rules: the MIME type it gives a source, the message
 * it shows for a playback error, the file name of a download and the link
 * that opens the video in VLC.
 */

module UniversalVideoPlayer {
  import opened JsText
  import MobileVideoUtils

  // ---------------------------------------------------------------------------
  // Source type

  /** The MIME type of a known extension, already lower-cased; anything else is treated as MP4. */
  function MimeOfExtension(extension: string): string
  {
    if extension == "mp4" then "video/mp4"
    else if extension == "webm" then "video/webm"
    else if extension == "mkv" then "video/x-matroska"
    else if extension == "m3u8" then "application/x-mpegURL"
    else "video/mp4"
  }

  /** `getVideoType(url)`: the text after the last `.`, lower-cased, picks the type. */
  function GetVideoType(url: string): string
  {
    MimeOfExtension(LowerAsciiString(AfterLast(url, '.')))
  }

  /**
   * A URL ending in `.` and an extension gets that extension's type, in any
   * letter case, whatever comes before the dot.
   */
  lemma VideoTypeOfExtension(base: string, extension: string)
    requires '.' !in extension
    ensures GetVideoType(base + "." + extension) == MimeOfExtension(LowerAsciiString(extension))
    ensures GetVideoType(base + "." + extension) == GetVideoType(base + "." + LowerAsciiString(extension))
  {
    AfterLastAppend(base, '.', extension);
    var lower := LowerAsciiString(extension);
    assert '.' !in lower by {
      forall i | 0 <= i < |lower| ensures lower[i] != '.' { assert extension[i] != '.'; }
    }
    AfterLastAppend(base, '.', lower);
    assert LowerAsciiString(lower) == lower;
  }

  /**
   * Only `webm`, `mkv` and `m3u8` (in any case) after the last dot change the
   * type from MP4; a query string after the extension, or a URL without a
   * dot that is not itself such a word, falls back to MP4.
   */
  lemma VideoTypeDefault(url: string)
    ensures GetVideoType(url) != "video/mp4" <==>
      LowerAsciiString(AfterLast(url, '.')) in {"webm", "mkv", "m3u8"}
  { }

  /** A query string after the extension hides it, so the type falls back to MP4. */
  lemma QueryHidesExtension(base: string, extension: string, query: string)
    requires '.' !in extension + "?" + query
    ensures GetVideoType(base + "." + extension + "?" + query) == "video/mp4"
  {
    assert base + "." + extension + "?" + query == base + "." + (extension + "?" + query);
    AfterLastAppend(base, '.', extension + "?" + query);
    var lower := LowerAsciiString(extension + "?" + query);
    assert lower[|extension|] == '?';
    assert '?' in lower && '?' !in "mp4" && '?' !in "webm" && '?' !in "mkv" && '?' !in "m3u8";
  }

  // ---------------------------------------------------------------------------
  // Error messages

  /** The message for the player's error code, which may be missing; codes 1 to 4 are the media error codes. */
  function ErrorMessage(errorCode: Option<int>, isMobile: bool): string
  {
    match errorCode
    case Some(1) => "Video loading was aborted."
    case Some(2) => "Network error occurred while loading video."
    case Some(3) => "Video format not supported."
    case Some(4) => "Video source not found."
    case _ =>
      if isMobile then "Mobile playback restricted. Try the options below."
      else "Video playback failed. Try alternative options."
  }

  /** The media error code a message names, if it names one. */
  function CodeOfMessage(message: string): Option<int>
  {
    if message == "Video loading was aborted." then Some(1)
    else if message == "Network error occurred while loading video." then Some(2)
    else if message == "Video format not supported." then Some(3)
    else if message == "Video source not found." then Some(4)
    else None
  }

  predicate IsMediaErrorCode(errorCode: Option<int>)
  {
    errorCode.Some? && 1 <= errorCode.value <= 4
  }

  /** Each of codes 1 to 4 has its own message, the same on every device, and the message gives the code back. */
  lemma MediaErrorMessage(errorCode: Option<int>, isMobile: bool)
    requires IsMediaErrorCode(errorCode)
    ensures CodeOfMessage(ErrorMessage(errorCode, isMobile)) == errorCode
    ensures ErrorMessage(errorCode, isMobile) == ErrorMessage(errorCode, !isMobile)
  { }

  /** Any other or missing code gets a fallback message that names no media error code. */
  lemma FallbackErrorMessage(errorCode: Option<int>, isMobile: bool)
    requires !IsMediaErrorCode(errorCode)
    ensures CodeOfMessage(ErrorMessage(errorCode, isMobile)) == None
  {
    if isMobile {
      assert CodeOfMessage("Mobile playback restricted. Try the options below.") == None;
    } else {
      assert CodeOfMessage("Video playback failed. Try alternative options.") == None;
    }
  }

  /**
   * The fallback is the same for every other or missing code, and differs
   * between the two values of the `isMobile` state. This is the intended
   * behaviour: a handler that reads the detected device shows the phone text
   * on a phone.
   */
  lemma FallbackPerDevice(errorCode: Option<int>, isMobile: bool)
    requires !IsMediaErrorCode(errorCode)
    ensures ErrorMessage(errorCode, isMobile) == ErrorMessage(None, isMobile)
    ensures ErrorMessage(errorCode, isMobile) != ErrorMessage(errorCode, !isMobile)
  { }

  /**
   * The message shown by the error handler registered on first load. The
   * mount effect's `loadVideoJS` and the `initializePlayer` it calls belong
   * to the first render, whose `isMobile` state is still `false`, so the
   * handler reads `false` whatever device was detected.
   */
  function MountedErrorMessage(errorCode: Option<int>, isMobileDevice: bool): string
  {
    ErrorMessage(errorCode, false)
  }

  /**
   * As written, a phone gets the desktop fallback until a retry registers a
   * handler that sees the detected device; the media error messages are not
   * affected.
   */
  lemma MountedFallbackOnPhone(errorCode: Option<int>)
    ensures IsMediaErrorCode(errorCode) ==> MountedErrorMessage(errorCode, true) == ErrorMessage(errorCode, true)
    ensures !IsMediaErrorCode(errorCode) ==>
      && MountedErrorMessage(errorCode, true) == "Video playback failed. Try alternative options."
      && MountedErrorMessage(errorCode, true) != ErrorMessage(errorCode, true)
  {
    if IsMediaErrorCode(errorCode) {
      MediaErrorMessage(errorCode, true);
    } else {
      FallbackPerDevice(errorCode, true);
    }
  }

  // ---------------------------------------------------------------------------
  // Download file name

  /**
   * The number of UTF-16 code units of a string, the unit a JavaScript
   * string and a regular expression without the `u` flag work in: a
   * character beyond the Basic Multilingual Plane takes two.
   */
  function Utf16Length(s: string): nat
  {
    if s == [] then 0 else (if s[0] as int >= 0x1_0000 then 2 else 1) + Utf16Length(s[1..])
  }

  /** What the download name makes of one character: a letter or digit lower-cased, one `_` per other code unit. */
  function StemOfChar(c: char): string
  {
    if IsAsciiAlnum(c) then [LowerAscii(c)]
    else if c as int >= 0x1_0000 then "__"
    else "_"
  }

  /** `title.replace(/[^a-z0-9]/gi, "_").toLowerCase()`. */
  function DownloadStem(title: string): string
  {
    if title == [] then [] else StemOfChar(title[0]) + DownloadStem(title[1..])
  }

  /** The name a download is saved under. */
  function DownloadName(title: string): string
  {
    DownloadStem(title) + ".mp4"
  }

  /** The stem of a joined title is the two stems joined: each character is replaced on its own. */
  lemma {:induction false} DownloadStemAppend(a: string, b: string)
    ensures DownloadStem(a + b) == DownloadStem(a) + DownloadStem(b)
    decreases |a|
  {
    if a != [] {
      assert (a + b)[0] == a[0] && (a + b)[1..] == a[1..] + b;
      DownloadStemAppend(a[1..], b);
    } else {
      assert a + b == b;
    }
  }

  /**
   * The stem has as many characters as the title has UTF-16 code units, at
   * least one per character, and is made only of lower-case letters,
   * digits and underscores.
   */
  lemma {:induction false} DownloadStemSpec(title: string)
    ensures |DownloadStem(title)| == Utf16Length(title) >= |title|
    ensures forall i :: 0 <= i < |DownloadStem(title)| ==>
      IsDigit(DownloadStem(title)[i]) || IsAsciiLower(DownloadStem(title)[i]) || DownloadStem(title)[i] == '_'
    decreases |title|
  {
    if title != [] {
      DownloadStemSpec(title[1..]);
      var head := StemOfChar(title[0]);
      var stem := DownloadStem(title);
      assert stem == head + DownloadStem(title[1..]);
      forall i | 0 <= i < |stem|
        ensures IsDigit(stem[i]) || IsAsciiLower(stem[i]) || stem[i] == '_'
      {
        if i >= |head| {
          assert stem[i] == DownloadStem(title[1..])[i - |head|];
        }
      }
    }
  }

  /**
   * On a title whose characters all lie in the Basic Multilingual Plane the
   * stem keeps one character per title character: the letter or digit
   * lower-cased, or an underscore.
   */
  lemma {:induction false} DownloadStemInPlane(title: string)
    requires forall i :: 0 <= i < |title| ==> title[i] as int < 0x1_0000
    ensures |DownloadStem(title)| == |title|
    ensures forall i :: 0 <= i < |title| ==>
      DownloadStem(title)[i] == (if IsAsciiAlnum(title[i]) then LowerAscii(title[i]) else '_')
    decreases |title|
  {
    if title != [] {
      DownloadStemInPlane(title[1..]);
      var stem := DownloadStem(title);
      assert stem == StemOfChar(title[0]) + DownloadStem(title[1..]);
      forall i | 0 <= i < |title|
        ensures stem[i] == (if IsAsciiAlnum(title[i]) then LowerAscii(title[i]) else '_')
      {
        if i > 0 {
          assert stem[i] == DownloadStem(title[1..])[i - 1];
          assert title[i] == title[1..][i - 1];
        }
      }
    }
  }

  /** A character beyond the Basic Multilingual Plane, such as an emoji, gives two underscores. */
  lemma DownloadStemOfAstral(before: string, c: char, after: string)
    requires c as int >= 0x1_0000
    ensures DownloadStem(before + [c] + after) == DownloadStem(before) + "__" + DownloadStem(after)
  {
    DownloadStemAppend(before + [c], after);
    DownloadStemAppend(before, [c]);
    assert DownloadStem([c]) == "__" by {
      assert [c][1..] == [];
    }
  }

  /** A stem is its own stem, and two titles that differ only in letter case share one. */
  lemma {:induction false} DownloadStemIdempotent(title: string)
    ensures DownloadStem(DownloadStem(title)) == DownloadStem(title)
    ensures DownloadStem(LowerAsciiString(title)) == DownloadStem(title)
    decreases |title|
  {
    if title != [] {
      DownloadStemIdempotent(title[1..]);
      var head := StemOfChar(title[0]);
      DownloadStemAppend(head, DownloadStem(title[1..]));
      assert DownloadStem(head) == head by {
        if IsAsciiAlnum(title[0]) {
          assert head[1..] == [];
        } else if title[0] as int >= 0x1_0000 {
          assert head[1..] == "_" && head[1..][1..] == [];
        } else {
          assert head[1..] == [];
        }
      }
      var lower := LowerAsciiString(title);
      assert lower[1..] == LowerAsciiString(title[1..]);
    }
  }

  /** The download name is the stem followed by `.mp4`. */
  lemma DownloadNameEndsMp4(title: string)
    ensures |DownloadName(title)| == Utf16Length(title) + 4
    ensures DownloadName(title)[Utf16Length(title)..] == ".mp4"
    ensures DownloadName(title)[..Utf16Length(title)] == DownloadStem(title)
  {
    DownloadStemSpec(title);
  }

  // ---------------------------------------------------------------------------
  // Opening in VLC

  /**
   * `openInVLC`'s link: the VLC callback URL with the encoded source and
   * title on iOS, otherwise the Android intent for VLC.
   */
  function VlcLink(src: string, title: string, isIOS: bool, encode: string -> string): string
  {
    if isIOS then "vlc-x-callback://x-callback-url/stream?url=" + encode(src) + "&filename=" + encode(title)
    else MobileVideoUtils.AndroidIntent(src, MobileVideoUtils.VlcPackage)
  }

  /**
   * The player opens VLC with the same link the mobile helpers offer for the
   * device, and the Android link carries the source without its scheme.
   */
  lemma VlcLinkMatchesAppIntents(src: string, title: string, isIOS: bool, encode: string -> string)
    ensures var intents := MobileVideoUtils.GenerateVideoAppIntents(src, title, encode);
      VlcLink(src, title, isIOS, encode) == if isIOS then intents.vlcIOS else intents.vlcAndroid
    ensures !isIOS ==>
      MobileVideoUtils.IntentTarget(VlcLink(src, title, isIOS, encode), MobileVideoUtils.VlcPackage)
        == Some(MobileVideoUtils.StripScheme(src))
  {
    MobileVideoUtils.AndroidIntentRoundTrip(src, MobileVideoUtils.VlcPackage);
  }
}
