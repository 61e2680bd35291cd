// Video time <-> frame index at 30 frames per second. The pages use two conventions:
// 0-based `floor(t * 30)` and 1-based `floor(t * 30) + 1` with frame start `(f - 1) / 30`.
module FrameTime {
  const Fps: real := 30.0

  /** The 0-based frame shown at time `t`: frame k covers [k/30, (k+1)/30). */
  function ZeroBasedFrame(t: real): (f: int)
    ensures f as real <= t * Fps < f as real + 1.0
    ensures t >= 0.0 ==> f >= 0
  {
    (t * Fps).Floor
  }

  /** The 1-based frame shown at time `t`: frame f covers [(f-1)/30, f/30). */
  function OneBasedFrame(t: real): (f: int)
    ensures FrameStartTime(f) <= t < FrameStartTime(f) + 1.0 / Fps
    ensures t >= 0.0 ==> f >= 1
    ensures f == ZeroBasedFrame(t) + 1
  {
    (t * Fps).Floor + 1
  }

  /** The time at which 1-based frame `f` starts. */
  function FrameStartTime(f: int): real
  {
    (f - 1) as real / Fps
  }

  /** Seeking to the start of a frame and reading the frame back gives the same frame. */
  lemma OneBasedRoundTrip(f: int)
    ensures OneBasedFrame(FrameStartTime(f)) == f
  {
    assert FrameStartTime(f) * Fps == (f - 1) as real;
  }
}
