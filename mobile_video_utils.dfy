/**
 * The mobile video helpers: what a user-agent string says about the device
 * and the browser, the advice list shown on phones, and the links that hand
 * a video to an external player app.
 */

module MobileVideoUtils {
  import opened JsText

  // ---------------------------------------------------------------------------
  // Device and browser

  /** `/Android|webOS|iPhone|iPad|iPod|BlackBerry|IEMobile|Opera Mini/i.test(userAgent)`. */
  predicate IsMobileAgent(userAgent: string)
  {
    || Contains(userAgent, "Android", true) || Contains(userAgent, "webOS", true)
    || Contains(userAgent, "iPhone", true) || Contains(userAgent, "iPad", true)
    || Contains(userAgent, "iPod", true) || Contains(userAgent, "BlackBerry", true)
    || Contains(userAgent, "IEMobile", true) || Contains(userAgent, "Opera Mini", true)
  }

  /** `/iPad|iPhone|iPod/.test(userAgent)`, case-sensitive. */
  predicate IsIOSAgent(userAgent: string)
  {
    Contains(userAgent, "iPad", false) || Contains(userAgent, "iPhone", false) || Contains(userAgent, "iPod", false)
  }

  /** `/Android/.test(userAgent)`, case-sensitive. */
  predicate IsAndroidAgent(userAgent: string)
  {
    Contains(userAgent, "Android", false)
  }

  /** The browser name: Chrome, then Firefox, then Safari without Chrome, then Edge, else Unknown. */
  function BrowserName(userAgent: string): string
  {
    if Contains(userAgent, "Chrome", false) then "Chrome"
    else if Contains(userAgent, "Firefox", false) then "Firefox"
    else if Contains(userAgent, "Safari", false) && !Contains(userAgent, "Chrome", false) then "Safari"
    else if Contains(userAgent, "Edge", false) then "Edge"
    else "Unknown"
  }

  /**
   * Chrome wins over everything, so Chrome's own user agent (which also
   * names Safari) reads as Chrome; Safari is reported only when neither
   * Chrome nor Firefox is named; Edge only when none of the three is.
   */
  lemma BrowserPrecedence(userAgent: string)
    ensures BrowserName(userAgent) == "Chrome" <==> Contains(userAgent, "Chrome", false)
    ensures BrowserName(userAgent) == "Firefox" <==>
      !Contains(userAgent, "Chrome", false) && Contains(userAgent, "Firefox", false)
    ensures BrowserName(userAgent) == "Safari" <==>
      !Contains(userAgent, "Chrome", false) && !Contains(userAgent, "Firefox", false) && Contains(userAgent, "Safari", false)
    ensures BrowserName(userAgent) == "Edge" <==>
      && !Contains(userAgent, "Chrome", false) && !Contains(userAgent, "Firefox", false)
      && !Contains(userAgent, "Safari", false) && Contains(userAgent, "Edge", false)
  { }

  /** The result of `detectMobileVideoCapabilities`. */
  datatype Capabilities = Capabilities(
    canPlayMP4: bool,
    canPlayWebM: bool,
    canPlayMKV: bool,
    supportsHLS: bool,
    supportsAutoplay: bool,
    requiresUserGesture: bool,
    browserName: string,
    isMobile: bool,
    isIOS: bool,
    isAndroid: bool)

  /**
   * `detectMobileVideoCapabilities` for a user agent, with the answers of the
   * video element's `canPlayType` for MP4, WebM, MKV and the two HLS types
   * passed in.
   */
  function DetectCapabilities(userAgent: string, mp4: bool, webm: bool, mkv: bool, appleHls: bool, hls: bool): Capabilities
  {
    var isMobile := IsMobileAgent(userAgent);
    var isIOS := IsIOSAgent(userAgent);
    Capabilities(mp4, webm, mkv, appleHls || hls, !isMobile && !isIOS, isMobile || isIOS,
                 BrowserName(userAgent), isMobile, isIOS, IsAndroidAgent(userAgent))
  }

  /**
   * An iPhone, iPad, iPod or Android agent is also a mobile one, so a user
   * gesture is needed exactly on mobile, and autoplay is supported exactly
   * when no gesture is needed.
   */
  lemma CapabilitiesConsistent(userAgent: string, mp4: bool, webm: bool, mkv: bool, appleHls: bool, hls: bool)
    ensures var c := DetectCapabilities(userAgent, mp4, webm, mkv, appleHls, hls);
      && (c.isIOS ==> c.isMobile)
      && (c.isAndroid ==> c.isMobile)
      && c.requiresUserGesture == c.isMobile
      && c.supportsAutoplay == !c.requiresUserGesture
  {
    if Contains(userAgent, "iPad", false) { ContainsCaseInsensitively(userAgent, "iPad"); }
    if Contains(userAgent, "iPhone", false) { ContainsCaseInsensitively(userAgent, "iPhone"); }
    if Contains(userAgent, "iPod", false) { ContainsCaseInsensitively(userAgent, "iPod"); }
    if Contains(userAgent, "Android", false) { ContainsCaseInsensitively(userAgent, "Android"); }
  }

  // ---------------------------------------------------------------------------
  // Advice for phones

  const UseExternalApp := "Use VLC or MX Player for best compatibility"
  const CopyUrl := "Copy URL and open in dedicated video app"
  const TryInfuse := "Try Infuse or PlayerXtreme Media Player"
  const DesktopSite := "Enable 'Request Desktop Website' in Safari"
  const UseChrome := "Use Chrome browser for better video support"
  const TryBSPlayer := "Try BSPlayer or KMPlayer"
  const MkvAdvice := "MKV files may not play directly - use external app"
  const DownloadAdvice := "Download video for offline viewing if streaming fails"

  function Count(b: bool): nat { if b then 1 else 0 }

  /**
   * `getMobileVideoRecommendations`: nothing off mobile; on mobile the two
   * app items, the iOS pair, the Android pair, the MKV warning when MKV
   * cannot play, and the download item last.
   */
  method GetMobileVideoRecommendations(c: Capabilities) returns (recommendations: seq<string>)
    ensures !c.isMobile ==> recommendations == []
    ensures c.isMobile ==>
      && |recommendations| == 3 + 2 * Count(c.isIOS) + 2 * Count(c.isAndroid) + Count(!c.canPlayMKV)
      && recommendations[..2] == [UseExternalApp, CopyUrl]
      && recommendations[|recommendations| - 1] == DownloadAdvice
      && (c.isIOS ==> recommendations[2..4] == [TryInfuse, DesktopSite])
      && (c.isAndroid ==> recommendations[2 + 2 * Count(c.isIOS)..4 + 2 * Count(c.isIOS)] == [UseChrome, TryBSPlayer])
      && (MkvAdvice in recommendations <==> !c.canPlayMKV)
  {
    recommendations := [];
    if c.isMobile {
      recommendations := recommendations + [UseExternalApp];
      recommendations := recommendations + [CopyUrl];
      if c.isIOS {
        recommendations := recommendations + [TryInfuse];
        recommendations := recommendations + [DesktopSite];
      }
      if c.isAndroid {
        recommendations := recommendations + [UseChrome];
        recommendations := recommendations + [TryBSPlayer];
      }
      ghost var beforeMkv := recommendations;
      assert MkvAdvice !in beforeMkv;
      if !c.canPlayMKV {
        recommendations := recommendations + [MkvAdvice];
      }
      recommendations := recommendations + [DownloadAdvice];
      assert MkvAdvice in recommendations <==> MkvAdvice in recommendations[|beforeMkv|..|recommendations| - 1];
    }
  }

  // ---------------------------------------------------------------------------
  // Links to player apps

  /** `url.replace(/^https?:\/\//, "")`: one leading `http://` or `https://` goes, case-sensitively. */
  function StripScheme(url: string): (r: string)
    ensures |r| <= |url| && r == url[|url| - |r|..]
  {
    if |url| >= 7 && url[..7] == "http://" then url[7..]
    else if |url| >= 8 && url[..8] == "https://" then url[8..]
    else url
  }

  /** Only one scheme is removed, and a URL without one is kept whole. */
  lemma StripSchemeSpec(rest: string)
    ensures StripScheme("http://" + rest) == rest
    ensures StripScheme("https://" + rest) == rest
    ensures (|rest| < 7 || rest[..7] != "http://") && (|rest| < 8 || rest[..8] != "https://") ==> StripScheme(rest) == rest
  {
    assert ("http://" + rest)[..7] == "http://";
    assert ("https://" + rest)[..8] == "https://";
    assert ("https://" + rest)[..7] != "http://" by { assert ("https://" + rest)[4] == 's'; }
  }

  const VlcPackage := "org.videolan.vlc"
  const MxPlayerPackage := "com.mxtech.videoplayer.ad"

  /** The text after the package in an Android intent link. */
  const IntentEnd := ";end"

  const IntentMiddle := "#Intent;action=android.intent.action.VIEW;type=video/*;package="

  /**
   * The Android intent link: `intent://`, the URL without its scheme, the
   * fixed VIEW-a-video middle, the package and `;end`.
   */
  function AndroidIntent(url: string, package: string): string
  {
    "intent://" + StripScheme(url) + IntentMiddle + package + IntentEnd
  }

  /** The address an intent link carries, between `intent://` and the fixed middle. */
  function IntentTarget(intent: string, package: string): Option<string>
  {
    var tail := |IntentMiddle| + |package| + |IntentEnd|;
    if |intent| >= 9 + tail && intent[..9] == "intent://" && intent[|intent| - tail..] == IntentMiddle + package + IntentEnd
    then Some(intent[9..|intent| - tail])
    else None
  }

  /** Reading the address back out of an intent link gives the URL without its scheme. */
  lemma AndroidIntentRoundTrip(url: string, package: string)
    ensures IntentTarget(AndroidIntent(url, package), package) == Some(StripScheme(url))
  {
    var intent := AndroidIntent(url, package);
    var tail := |IntentMiddle| + |package| + |IntentEnd|;
    assert intent == "intent://" + StripScheme(url) + (IntentMiddle + package + IntentEnd);
    assert intent[..9] == "intent://";
    assert intent[|intent| - tail..] == IntentMiddle + package + IntentEnd;
    assert intent[9..|intent| - tail] == StripScheme(url);
  }

  /** The links of `generateVideoAppIntents`. */
  datatype AppIntents = AppIntents(
    vlcAndroid: string,
    mxPlayerAndroid: string,
    vlcIOS: string,
    infuseIOS: string,
    browserFallback: string,
    downloadLink: string)

  /** `generateVideoAppIntents`, with `encodeURIComponent` passed in as `encode`. */
  function GenerateVideoAppIntents(videoUrl: string, title: string, encode: string -> string): AppIntents
  {
    AppIntents(
      AndroidIntent(videoUrl, VlcPackage),
      AndroidIntent(videoUrl, MxPlayerPackage),
      "vlc-x-callback://x-callback-url/stream?url=" + encode(videoUrl) + "&filename=" + encode(title),
      "infuse://x-callback-url/play?url=" + encode(videoUrl),
      videoUrl,
      videoUrl)
  }

  /**
   * Both Android links carry the URL without its scheme, for VLC and for MX
   * Player; the browser and download fallbacks are the URL itself.
   */
  lemma AppIntentsSpec(videoUrl: string, title: string, encode: string -> string)
    ensures var i := GenerateVideoAppIntents(videoUrl, title, encode);
      && IntentTarget(i.vlcAndroid, VlcPackage) == Some(StripScheme(videoUrl))
      && IntentTarget(i.mxPlayerAndroid, MxPlayerPackage) == Some(StripScheme(videoUrl))
      && i.browserFallback == videoUrl && i.downloadLink == videoUrl
  {
    AndroidIntentRoundTrip(videoUrl, VlcPackage);
    AndroidIntentRoundTrip(videoUrl, MxPlayerPackage);
  }
}
