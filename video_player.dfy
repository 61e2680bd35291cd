// The annotation editor's video player: the frame it reports on each time update, the
// seek bar, the play/pause button and the clock text. The element is reduced to its current
// time; `isPlaying` belongs to the editor and is passed in and returned.
module VideoPlayer {
  import opened Text
  import opened FrameTime

  /** JavaScript `Math.trunc`. */
  function Trunc(x: real): (n: int)
    ensures x >= 0.0 ==> n == x.Floor
    ensures x < 0.0 ==> n == -((-x).Floor)
  {
    if x >= 0.0 then x.Floor else -((-x).Floor)
  }

  /** `Math.floor(t / 60)` and `Math.floor(t % 60)`, where `%` keeps the sign of `t`. */
  function MinutesSeconds(t: real): (ms: (int, int))
    ensures t >= 0.0 ==> ms.0 >= 0 && 0 <= ms.1 < 60
    ensures t >= 0.0 ==> (ms.0 * 60 + ms.1) as real <= t < (ms.0 * 60 + ms.1 + 1) as real
  {
    var minutes := (t / 60.0).Floor;
    var remainder := t - 60.0 * Trunc(t / 60.0) as real;
    (minutes, remainder.Floor)
  }

  /** `formatTime`: minutes, a colon and the seconds padded to two digits. */
  function FormatTime(t: real): string
  {
    var ms := MinutesSeconds(t);
    IntText(ms.0) + ":" + PadStart(IntText(ms.1), 2, '0')
  }

  /**
   * For a non-negative time the clock reads back: digits of the minutes, a colon, and
   * exactly two digits of the seconds, which together give the whole seconds elapsed.
   */
  lemma FormatTimeReadsBack(t: real)
    requires t >= 0.0
    ensures var text := FormatTime(t); var ms := MinutesSeconds(t);
      ClockReads(text, ms.0, ms.1) && (ms.0 * 60 + ms.1) as real <= t < (ms.0 * 60 + ms.1 + 1) as real
  {
    var ms := MinutesSeconds(t);
    ClockText(ms.0, ms.1);
  }

  /** `text` is `m:ss`: the minutes' digits, a colon and two digits of the seconds. */
  predicate ClockReads(text: string, minutes: int, seconds: int)
  {
    var n := |text|;
    n >= 4 && text[n - 3] == ':' && AllDigits(text[..n - 3]) && AllDigits(text[n - 2..]) &&
    ValueOf(text[..n - 3]) == minutes && ValueOf(text[n - 2..]) == seconds
  }

  lemma ClockText(minutes: nat, seconds: nat)
    requires seconds < 60
    ensures ClockReads(IntText(minutes) + ":" + PadStart(IntText(seconds), 2, '0'), minutes, seconds)
  {
    var m := Digits(minutes);
    var padded := PadStart(Digits(seconds), 2, '0');
    ValueOfDigits(minutes);
    TwoDigitSeconds(seconds);
    var text := m + ":" + padded;
    assert text[..|text| - 3] == m;
    assert text[|text| - 2..] == padded;
  }

  /** The seconds of a minute, padded, are exactly two digits denoting them. */
  lemma TwoDigitSeconds(seconds: nat)
    requires seconds < 60
    ensures var p := PadStart(Digits(seconds), 2, '0'); |p| == 2 && AllDigits(p) && ValueOf(p) == seconds
  {
    var s := Digits(seconds);
    ValueOfDigits(seconds);
    if seconds < 10 {
      assert PadStart(s, 2, '0') == Repeat('0', 1) + s;
      ValueOfLeadingZeros(1, s);
    } else {
      assert s == Digits(seconds / 10) + [DigitChar(seconds % 10)];
      assert |Digits(seconds / 10)| == 1;
    }
  }

  class Player {
    var currentTime: real
    var duration: real
    var videoTime: real

    constructor ()
      ensures currentTime == 0.0 && duration == 0.0 && videoTime == 0.0
    {
      currentTime := 0.0;
      duration := 0.0;
      videoTime := 0.0;
    }

    /** `handleTimeUpdate`: the 1-based frame of the video's time is reported and the clock follows the video. */
    method TimeUpdate() returns (frame: int)
      modifies this`currentTime
      ensures currentTime == videoTime
      ensures frame == OneBasedFrame(videoTime)
      ensures videoTime >= 0.0 ==> frame >= 1
    {
      frame := OneBasedFrame(videoTime);
      currentTime := videoTime;
    }

    method LoadedMetadata(d: real)
      modifies this`duration
      ensures duration == d
    {
      duration := d;
    }

    /** `handleSeek`: a click at fraction `p` of the bar moves the video to that fraction of its duration. */
    method Seek(p: real)
      modifies this`videoTime, this`currentTime
      ensures videoTime == p * duration && currentTime == videoTime
      ensures 0.0 <= p <= 1.0 && duration >= 0.0 ==> 0.0 <= videoTime <= duration
    {
      SeekWithin(p, duration);
      videoTime := p * duration;
      currentTime := videoTime;
    }

    /** `handlePlayPause`: the page's flag is flipped. */
    method PlayPause(isPlaying: bool) returns (next: bool)
      ensures next == !isPlaying
    {
      next := !isPlaying;
    }
  }

  lemma SeekWithin(p: real, duration: real)
    ensures 0.0 <= p <= 1.0 && duration >= 0.0 ==> 0.0 <= p * duration <= duration
  {
    if 0.0 <= p <= 1.0 && duration >= 0.0 {
      assert (1.0 - p) * duration >= 0.0;
    }
  }
}
