/**
 * The mobile video player's controls: play/pause, ten-second skips clamped
 * to the video, and the `h:mm:ss` / `m:ss` position label.
 */

module VideoPlayer {
  import opened JsText

  /** How far a skip moves, in milliseconds. */
  const SkipMillis: int := 10000

  /** `x || 0` on a status field that may be missing. */
  function OrZero(x: Option<int>): int
  {
    match x
    case Some(v) => v
    case None => 0
  }

  /** `Math.min(currentPosition + 10000, status.durationMillis || 0)`. */
  function SkipForwardTarget(position: Option<int>, duration: Option<int>): int
  {
    var target := OrZero(position) + SkipMillis;
    if target <= OrZero(duration) then target else OrZero(duration)
  }

  /** `Math.max(currentPosition - 10000, 0)`. */
  function SkipBackwardTarget(position: Option<int>): int
  {
    var target := OrZero(position) - SkipMillis;
    if target >= 0 then target else 0
  }

  /**
   * A backward skip never goes below the start; a forward skip never passes
   * the end, and with no known duration it jumps to the start; away from the
   * ends both move exactly ten seconds.
   */
  lemma SkipBounds(position: Option<int>, duration: Option<int>)
    ensures SkipBackwardTarget(position) >= 0
    ensures SkipBackwardTarget(position) <= OrZero(position) || OrZero(position) < 0
    ensures SkipForwardTarget(position, duration) <= OrZero(duration)
    ensures duration.None? && OrZero(position) >= -SkipMillis ==> SkipForwardTarget(position, duration) == 0
    ensures OrZero(position) >= SkipMillis ==> SkipBackwardTarget(position) == OrZero(position) - SkipMillis
    ensures OrZero(position) + SkipMillis <= OrZero(duration) ==>
      SkipForwardTarget(position, duration) == OrZero(position) + SkipMillis
  { }

  /** Away from the end, skipping back after skipping forward returns to the same position. */
  lemma SkipBackUndoesForward(position: int, duration: Option<int>)
    requires position >= 0 && position + SkipMillis <= OrZero(duration)
    ensures SkipBackwardTarget(Some(SkipForwardTarget(Some(position), duration))) == position
  { }

  class VideoPlayer {
    var isPlaying: bool
    var positionMillis: Option<int>
    var durationMillis: Option<int>
    var showControls: bool

    constructor()
      ensures !isPlaying && positionMillis.None? && durationMillis.None? && showControls
    {
      isPlaying := false;
      positionMillis := None;
      durationMillis := None;
      showControls := true;
    }

    /** `togglePlayPause`: pauses a playing video and plays a paused one. */
    method TogglePlayPause()
      modifies this`isPlaying
      ensures isPlaying == !old(isPlaying)
    {
      if isPlaying {
        isPlaying := false;
      } else {
        isPlaying := true;
      }
    }

    /** `toggleControls`. */
    method ToggleControls()
      modifies this`showControls
      ensures showControls == !old(showControls)
    {
      showControls := !showControls;
    }

    /** `skipForward`: seeks ten seconds on, but not past the end. */
    method SkipForward()
      modifies this`positionMillis
      ensures positionMillis == Some(SkipForwardTarget(old(positionMillis), durationMillis))
    {
      var currentPosition := OrZero(positionMillis);
      var end := OrZero(durationMillis);
      var newPosition := if currentPosition + SkipMillis <= end then currentPosition + SkipMillis else end;
      positionMillis := Some(newPosition);
    }

    /** `skipBackward`: seeks ten seconds back, but not before the start. */
    method SkipBackward()
      modifies this`positionMillis
      ensures positionMillis == Some(SkipBackwardTarget(old(positionMillis)))
    {
      var currentPosition := OrZero(positionMillis);
      var newPosition := if currentPosition - SkipMillis >= 0 then currentPosition - SkipMillis else 0;
      positionMillis := Some(newPosition);
    }
  }

  // ---------------------------------------------------------------------------
  // The position label

  /** Hours, minutes and seconds of a position. */
  datatype Clock = Clock(hours: int, minutes: int, seconds: int)

  /** The fields `formatTime` computes from whole seconds, with JavaScript's `Math.floor` and `%`. */
  function ClockOf(millis: int): Clock
  {
    var totalSeconds := millis / 1000;
    Clock(totalSeconds / 3600, JsRem(totalSeconds, 3600) / 60, JsRem(totalSeconds, 60))
  }

  /** `n.toString().padStart(2, "0")`. */
  function Pad2(n: int): string
  {
    PadStart(IntToString(n), 2, '0')
  }

  /** `formatTime(millis)`: `h:mm:ss` from one hour on, otherwise `m:ss`. */
  function FormatTime(millis: int): string
  {
    var c := ClockOf(millis);
    if c.hours > 0 then IntToString(c.hours) + ":" + Pad2(c.minutes) + ":" + Pad2(c.seconds)
    else IntToString(c.minutes) + ":" + Pad2(c.seconds)
  }

  /**
   * For a position that is not negative the minute and second fields lie in
   * 0..59 and, with the hours, make up exactly the whole seconds.
   */
  lemma ClockOfSpec(millis: int)
    requires millis >= 0
    ensures ClockOf(millis).hours >= 0
    ensures 0 <= ClockOf(millis).minutes < 60 && 0 <= ClockOf(millis).seconds < 60
    ensures 3600 * ClockOf(millis).hours + 60 * ClockOf(millis).minutes + ClockOf(millis).seconds == millis / 1000
  {
    var total := millis / 1000;
    var h := total / 3600;
    var r := total % 3600;
    var m := r / 60;
    var s := r % 60;
    assert JsRem(total, 3600) == r && JsRem(total, 60) == total % 60;
    assert total == 60 * (60 * h + m) + s;
    DivMod(total, 60, 60 * h + m, s);
  }

  /** A two-digit field reads back as its value. */
  lemma Pad2Spec(n: nat)
    requires n < 100
    ensures |Pad2(n)| == 2 && AllDigits(Pad2(n)) && DigitsValue(Pad2(n)) == n
  {
    NatToStringValue(n);
    PadStartDigits(NatToString(n));
    if n >= 10 {
      assert NatToString(n) == NatToString(n / 10) + [DigitChar(n % 10)];
    }
  }

  /**
   * The label of h hours, m minutes, s seconds and any milliseconds below a
   * second: the hours unpadded, then the minutes and the seconds as two
   * digits each; under an hour, the minutes unpadded and the seconds.
   */
  lemma FormatTimeFields(millis: int, h: nat, m: nat, s: nat, ms: nat)
    requires m < 60 && s < 60 && ms < 1000
    requires millis == 1000 * (3600 * h + 60 * m + s) + ms
    ensures FormatTime(millis) == if h > 0 then NatToString(h) + ":" + Pad2(m) + ":" + Pad2(s) else NatToString(m) + ":" + Pad2(s)
  {
    ClockOfFields(millis, h, m, s, ms);
  }

  /** A position made of whole hours, minutes, seconds and milliseconds has those clock fields. */
  lemma ClockOfFields(millis: int, h: nat, m: nat, s: nat, ms: nat)
    requires m < 60 && s < 60 && ms < 1000
    requires millis == 1000 * (3600 * h + 60 * m + s) + ms
    ensures ClockOf(millis) == Clock(h, m, s)
  {
    var total := 3600 * h + 60 * m + s;
    DivMod(millis, 1000, total, ms);
    DivMod(total, 3600, h, 60 * m + s);
    DivMod(60 * m + s, 60, m, s);
    DivMod(total, 60, 60 * h + m, s);
    ClockFromFields(millis, h, m, s);
  }

  lemma ClockFromFields(millis: int, h: nat, m: nat, s: nat)
    requires millis >= 0
    requires millis / 1000 / 3600 == h && (millis / 1000 % 3600) / 60 == m && millis / 1000 % 60 == s
    ensures ClockOf(millis) == Clock(h, m, s)
  { }

  /** Each padded field is two digits that read back as its value. */
  lemma FormatTimeReadsBack(millis: int)
    requires millis >= 0
    ensures |Pad2(ClockOf(millis).minutes)| == 2 && AllDigits(Pad2(ClockOf(millis).minutes)) && DigitsValue(Pad2(ClockOf(millis).minutes)) == ClockOf(millis).minutes
    ensures |Pad2(ClockOf(millis).seconds)| == 2 && AllDigits(Pad2(ClockOf(millis).seconds)) && DigitsValue(Pad2(ClockOf(millis).seconds)) == ClockOf(millis).seconds
    ensures ClockOf(millis).hours > 0 ==>
      FormatTime(millis) == NatToString(ClockOf(millis).hours) + ":" + Pad2(ClockOf(millis).minutes) + ":" + Pad2(ClockOf(millis).seconds)
  {
    ClockOfSpec(millis);
    Pad2Spec(ClockOf(millis).minutes);
    Pad2Spec(ClockOf(millis).seconds);
  }
}
