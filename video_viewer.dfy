// The editor's video viewer: the page's 1-based current frame drives the video element's
// time, and while paused the element's time drives the frame back. The element is reduced
// to its current time; playing and pausing it are the `isPlaying` flag.
module VideoViewer {
  import opened Wrappers
  import opened FrameTime

  /** The viewer re-seeks only when the video is more than a tenth of a second off. */
  const SeekTolerance := 0.1

  function Abs(x: real): real { if x < 0.0 then -x else x }

  class Viewer {
    var isPlaying: bool
    var duration: real
    var videoTime: real

    constructor ()
      ensures !isPlaying && duration == 0.0 && videoTime == 0.0
    {
      isPlaying := false;
      duration := 0.0;
      videoTime := 0.0;
    }

    /**
     * The effect on a new current frame: the video is moved to the frame's start time unless
     * it is already within the tolerance of it; either way it ends within the tolerance.
     */
    method SyncToFrame(currentFrame: int)
      modifies this`videoTime
      ensures Abs(old(videoTime) - FrameStartTime(currentFrame)) > SeekTolerance ==> videoTime == FrameStartTime(currentFrame)
      ensures Abs(old(videoTime) - FrameStartTime(currentFrame)) <= SeekTolerance ==> videoTime == old(videoTime)
      ensures Abs(videoTime - FrameStartTime(currentFrame)) <= SeekTolerance
    {
      var targetTime := FrameStartTime(currentFrame);
      if Abs(videoTime - targetTime) > SeekTolerance {
        videoTime := targetTime;
      }
    }

    /** `handleTimeUpdate`: while paused, a frame different from the page's is reported. */
    method TimeUpdate(currentFrame: int) returns (reported: Option<int>)
      ensures reported.Some? <==> !isPlaying && OneBasedFrame(videoTime) != currentFrame
      ensures reported.Some? ==> (reported.value == OneBasedFrame(videoTime) &&
        FrameStartTime(reported.value) <= videoTime < FrameStartTime(reported.value) + 1.0 / Fps)
    {
      if !isPlaying {
        var frame := OneBasedFrame(videoTime);
        if frame != currentFrame {
          return Some(frame);
        }
      }
      return None;
    }

    method LoadedMetadata(d: real)
      modifies this`duration
      ensures duration == d
    {
      duration := d;
    }

    /** `togglePlayPause`. */
    method TogglePlayPause()
      modifies this`isPlaying
      ensures isPlaying == !old(isPlaying)
    {
      isPlaying := !isPlaying;
    }
  }

  /**
   * A seek the effect makes lands on the frame's start, so the time update that follows
   * reports nothing: the frame and the video agree.
   */
  method SeekThenUpdate(v: Viewer, currentFrame: int) returns (reported: Option<int>)
    modifies v
    ensures v.isPlaying == old(v.isPlaying)
    ensures Abs(old(v.videoTime) - FrameStartTime(currentFrame)) > SeekTolerance ==> reported.None?
  {
    v.SyncToFrame(currentFrame);
    OneBasedRoundTrip(currentFrame);
    reported := v.TimeUpdate(currentFrame);
  }
}
