// The video processor's online action recognizer: a sliding buffer of the last 30 poses,
// movement flags from its first and last pose, a priority classifier, the grouping of the
// detections into segments, and the per-frame processing loop limited to 300 frames.
module Recognizer {
  import opened Wrappers
  import Dict
  import opened Annotation
  import opened FrameKeys
  import opened Segments

  const BufferSize: nat := 30
  const MinPoses: nat := 10
  const FrameLimit: nat := 300
  const ObjectStride: nat := 5
  const ProgressStride: nat := 30
  const SegmentConfidence: real := 0.85

  datatype BufferedPose = BufferedPose(frame: int, keypoints: Keypoints)

  datatype Detection = Detection(frame: int, action: Label)

  datatype Movements = Movements(armRaised: bool, walking: bool, reaching: bool, picking: bool, sitting: bool)

  function Abs(x: real): real { if x < 0.0 then -x else x }

  /** Appending one pose and dropping the oldest when the buffer outgrows its size. */
  function Window(s: seq<BufferedPose>): seq<BufferedPose>
  {
    if |s| > BufferSize then s[1..] else s
  }

  /** The buffer after adding `poses` one by one to an empty buffer. */
  function BufferAfter(poses: seq<BufferedPose>): seq<BufferedPose>
  {
    if poses == [] then [] else Window(BufferAfter(poses[..|poses| - 1]) + [poses[|poses| - 1]])
  }

  /** The buffer holds exactly the most recent min(n, 30) poses, oldest first. */
  lemma {:induction false} BufferIsRecentSuffix(poses: seq<BufferedPose>)
    ensures |BufferAfter(poses)| == if |poses| < BufferSize then |poses| else BufferSize
    ensures BufferAfter(poses) == poses[|poses| - |BufferAfter(poses)|..]
  {
    if poses != [] {
      var init := poses[..|poses| - 1];
      BufferIsRecentSuffix(init);
      var b := BufferAfter(init);
      assert b + [poses[|poses| - 1]] == poses[|init| - |b|..];
    }
  }

  /** Movement flags from the first and the last buffered pose; a missing keypoint clears its flag. */
  function AnalyzeMovements(buffer: seq<BufferedPose>): (m: Movements)
    ensures buffer == [] ==> m == Movements(false, false, false, false, false)
    ensures buffer != [] ==>
      var last := buffer[|buffer| - 1].keypoints;
      var first := buffer[0].keypoints;
      (m.armRaised || m.reaching ==> Dict.HasKey(last, "right_wrist") && Dict.HasKey(last, "right_shoulder")) &&
      (m.picking ==> Dict.HasKey(last, "right_wrist") && Dict.HasKey(last, "right_hip")) &&
      (m.walking || m.sitting ==> Dict.HasKey(first, "left_hip") && Dict.HasKey(last, "left_hip"))
  {
    if buffer == [] then Movements(false, false, false, false, false)
    else
      var first := buffer[0].keypoints;
      var last := buffer[|buffer| - 1].keypoints;
      var wrist := Dict.Get(last, "right_wrist");
      var shoulder := Dict.Get(last, "right_shoulder");
      var rightHip := Dict.Get(last, "right_hip");
      var hip0 := Dict.Get(first, "left_hip");
      var hip1 := Dict.Get(last, "left_hip");
      Movements(
        armRaised := wrist.Some? && shoulder.Some? && wrist.value.y < shoulder.value.y - 50.0,
        walking := hip0.Some? && hip1.Some? && Abs(hip0.value.x - hip1.value.x) > 30.0,
        reaching := wrist.Some? && shoulder.Some? && Abs(wrist.value.x - shoulder.value.x) > 100.0,
        picking := wrist.Some? && rightHip.Some? && wrist.value.y > rightHip.value.y + 50.0,
        sitting := hip0.Some? && hip1.Some? && hip1.value.y - hip0.value.y > 50.0)
  }

  /** Only the first and the last buffered pose matter. */
  lemma MovementsFromEnds(buffer: seq<BufferedPose>)
    requires buffer != []
    ensures AnalyzeMovements(buffer) == AnalyzeMovements([buffer[0], buffer[|buffer| - 1]])
  {
  }

  /** When the first and the last pose agree (a single pose, say), nobody walks or sits. */
  lemma StillNeitherWalksNorSits(buffer: seq<BufferedPose>)
    requires buffer != [] && buffer[0].keypoints == buffer[|buffer| - 1].keypoints
    ensures !AnalyzeMovements(buffer).walking && !AnalyzeMovements(buffer).sitting
  {
  }

  /** The first movement that holds, in the order wave, walk, reach, pick, sit; stand otherwise. */
  function Classify(m: Movements): (r: Label)
    ensures r in ["wave", "walk", "reach", "pick", "sit", "stand"]
    ensures r == "wave" <==> m.armRaised
    ensures r == "walk" <==> !m.armRaised && m.walking
    ensures r == "reach" <==> !m.armRaised && !m.walking && m.reaching
    ensures r == "pick" <==> !m.armRaised && !m.walking && !m.reaching && m.picking
    ensures r == "sit" <==> !m.armRaised && !m.walking && !m.reaching && !m.picking && m.sitting
    ensures r == "stand" <==> !m.armRaised && !m.walking && !m.reaching && !m.picking && !m.sitting
  {
    if m.armRaised then "wave"
    else if m.walking then "walk"
    else if m.reaching then "reach"
    else if m.picking then "pick"
    else if m.sitting then "sit"
    else "stand"
  }

  /** Detections as grouping observations. */
  function ObservationsOf(ds: seq<Detection>): (obs: Segments.Observations)
    ensures |obs| == |ds| && forall i :: 0 <= i < |ds| ==> obs[i] == (ds[i].frame, ds[i].action)
  {
    if ds == [] then [] else ObservationsOf(ds[..|ds| - 1]) + [(ds[|ds| - 1].frame, ds[|ds| - 1].action)]
  }

  predicate IncreasingFrames(ds: seq<Detection>)
  {
    forall i, j :: 0 <= i < j < |ds| ==> ds[i].frame < ds[j].frame
  }

  predicate DetectedBefore(ds: seq<Detection>, frame: int)
  {
    forall e :: e in ds ==> e.frame < frame
  }

  /** A detection later than every recorded one keeps the frames increasing. */
  lemma AppendIncreasing(ds: seq<Detection>, d: Detection)
    requires IncreasingFrames(ds)
    requires DetectedBefore(ds, d.frame)
    ensures IncreasingFrames(ds + [d])
  {
    var r := ds + [d];
    forall i, j | 0 <= i < j < |r| ensures r[i].frame < r[j].frame {
      assert r[i] in ds;
    }
  }

  /** A segment as the processor stores it, with the fixed confidence 0.85. */
  function SegmentAction(s: Segment): (a: Action)
    ensures a.name == s.name && a.startFrame == s.startFrame && a.endFrame == s.endFrame && a.confidence == 0.85
  {
    Action(s.name, s.startFrame, s.endFrame, SegmentConfidence)
  }

  function SegmentActions(segments: seq<Segment>): (r: seq<Action>)
    ensures |r| == |segments| && forall i :: 0 <= i < |r| ==> r[i] == SegmentAction(segments[i])
  {
    seq(|segments|, i requires 0 <= i < |segments| => SegmentAction(segments[i]))
  }

  /**
   * What one frame's pose does to the recognizer: a pose without keypoints is ignored;
   * otherwise it is buffered, and once ten poses are buffered the classification is recorded.
   */
  function RecognizerStep(buffer: seq<BufferedPose>, detected: seq<Detection>, frame: int, keypoints: Keypoints)
    : (seq<BufferedPose>, seq<Detection>)
  {
    if |keypoints| == 0 then (buffer, detected)
    else
      var b := Window(buffer + [BufferedPose(frame, keypoints)]);
      (b, if |b| < MinPoses then detected else detected + [Detection(frame, Classify(AnalyzeMovements(b)))])
  }

  /**
   * A frame without keypoints leaves the recognizer alone; the buffer stays within 30; a
   * detection for this frame is recorded exactly when the pose has keypoints and at least ten
   * poses are buffered, and it is the classification of the updated buffer.
   */
  lemma RecognizerStepProperties(buffer: seq<BufferedPose>, detected: seq<Detection>, frame: int, keypoints: Keypoints)
    ensures var r := RecognizerStep(buffer, detected, frame, keypoints);
      (|keypoints| == 0 ==> r == (buffer, detected)) &&
      (|buffer| <= BufferSize ==> |r.0| <= BufferSize) &&
      (r.1 == detected || r.1 == detected + [Detection(frame, Classify(AnalyzeMovements(r.0)))]) &&
      (r.1 != detected <==> |keypoints| > 0 && |r.0| >= MinPoses)
  {
  }

  /** The poses among the first `n` frames that have keypoints, numbered by frame: what is buffered. */
  function PosesFed(frames: seq<(Pose, seq<Obj>)>, n: nat): seq<BufferedPose>
    requires n <= |frames|
  {
    if n == 0 then []
    else
      var kps := frames[n - 1].0.keypoints;
      PosesFed(frames, n - 1) + if |kps| > 0 then [BufferedPose(n - 1, kps)] else []
  }

  /**
   * The recognizer's buffer and detections after the first `n` frames have been fed to it,
   * starting from the buffer `start` and no detections.
   */
  function Recognized(start: seq<BufferedPose>, frames: seq<(Pose, seq<Obj>)>, n: nat): (seq<BufferedPose>, seq<Detection>)
    requires n <= |frames|
  {
    if n == 0 then (start, [])
    else
      var (buffer, detected) := Recognized(start, frames, n - 1);
      RecognizerStep(buffer, detected, n - 1, frames[n - 1].0.keypoints)
  }

  lemma RecognizedStep(start: seq<BufferedPose>, frames: seq<(Pose, seq<Obj>)>, n: nat)
    requires n < |frames|
    ensures var (buffer, detected) := Recognized(start, frames, n);
      Recognized(start, frames, n + 1) == RecognizerStep(buffer, detected, n, frames[n].0.keypoints)
  {
  }

  /**
   * From an empty start, the buffer after `n` frames is the buffer of the poses fed so far
   * (so the most recent 30 of them), and every fed pose from the tenth on records one action.
   */
  lemma {:induction false} RecognizedFromEmpty(frames: seq<(Pose, seq<Obj>)>, n: nat)
    requires n <= |frames|
    ensures Recognized([], frames, n).0 == BufferAfter(PosesFed(frames, n))
    ensures |Recognized([], frames, n).1| == if |PosesFed(frames, n)| < MinPoses then 0 else |PosesFed(frames, n)| - (MinPoses - 1)
  {
    if n > 0 {
      RecognizedFromEmpty(frames, n - 1);
      var fed := PosesFed(frames, n - 1);
      var kps := frames[n - 1].0.keypoints;
      if |kps| > 0 {
        var all := fed + [BufferedPose(n - 1, kps)];
        assert PosesFed(frames, n) == all;
        assert all[..|all| - 1] == fed;
        BufferIsRecentSuffix(all);
      } else {
        assert PosesFed(frames, n) == fed;
      }
    }
  }

  class ActionRecognizer {
    var poseBuffer: seq<BufferedPose>
    var actionsDetected: seq<Detection>

    ghost predicate Valid()
      reads this
    {
      |poseBuffer| <= BufferSize && IncreasingFrames(actionsDetected)
    }

    constructor ()
      ensures Valid() && poseBuffer == [] && actionsDetected == []
    {
      poseBuffer := [];
      actionsDetected := [];
    }

    /** Buffers one pose; the oldest is dropped once more than 30 are held. */
    method AddPose(frame: int, keypoints: Keypoints)
      requires Valid()
      modifies this`poseBuffer
      ensures Valid()
      ensures poseBuffer == Window(old(poseBuffer) + [BufferedPose(frame, keypoints)])
    {
      poseBuffer := poseBuffer + [BufferedPose(frame, keypoints)];
      if |poseBuffer| > BufferSize {
        poseBuffer := poseBuffer[1..];
      }
    }

    /** No action before ten poses are buffered; afterwards the classification of the buffer. */
    method RecognizeAction() returns (r: Option<Label>)
      ensures r.None? <==> |poseBuffer| < MinPoses
      ensures r.Some? ==> r.value == Classify(AnalyzeMovements(poseBuffer))
    {
      if |poseBuffer| < MinPoses {
        return None;
      }
      r := Some(Classify(AnalyzeMovements(poseBuffer)));
    }

    /** Groups the detections: runs of one action become one segment ending before the next run. */
    method GetActionSegments() returns (segments: seq<Segment>)
      ensures segments == Runs(ObservationsOf(actionsDetected))
    {
      segments := [];
      var current: Option<Label> := None;
      var startFrame := 0;
      ghost var obs := ObservationsOf(actionsDetected);
      for i := 0 to |actionsDetected|
        invariant current.None? <==> i == 0
        invariant i == 0 ==> segments == []
        invariant i > 0 ==> RunsUpTo(obs, i) == segments + [Segment(current.value, startFrame, actionsDetected[i - 1].frame)]
      {
        var info := actionsDetected[i];
        assert obs[i] == (info.frame, info.action);
        assert i > 0 ==> obs[i - 1].0 == actionsDetected[i - 1].frame;
        RunsAdvance(obs, i, segments, current, startFrame);
        if current != Some(info.action) {
          if current.Some? {
            segments := segments + [Segment(current.value, startFrame, info.frame - 1)];
          }
          current := Some(info.action);
          startFrame := info.frame;
        }
      }
      if current.Some? && |actionsDetected| > 0 {
        segments := segments + [Segment(current.value, startFrame, actionsDetected[|actionsDetected| - 1].frame)];
      }
    }
  }

  /**
   * The object detections kept for the first `n` frames: those of frames 0, 5, 10, ...,
   * in frame order, each under its padded key.
   */
  predicate StoredObjects(d: ObjectTrack, frames: seq<(Pose, seq<Obj>)>, n: nat)
  {
    n <= |frames| && ObjectStride * |d| - ObjectStride < n <= ObjectStride * |d| &&
    forall i :: 0 <= i < |d| ==> d[i] == (PyFrameKey(ObjectStride * i), frames[ObjectStride * i].1)
  }

  class VideoProcessor {
    var poseData: PoseTrack
    var objectData: ObjectTrack
    var actionData: seq<Action>
    const recognizer: ActionRecognizer

    ghost predicate Valid()
      reads this, recognizer
    {
      recognizer.Valid()
    }

    constructor ()
      ensures Valid() && fresh(recognizer)
      ensures poseData == [] && objectData == [] && actionData == []
      ensures recognizer.poseBuffer == [] && recognizer.actionsDetected == []
    {
      poseData := [];
      objectData := [];
      actionData := [];
      recognizer := new ActionRecognizer();
    }

    /**
     * One frame: store its pose under `frame_NNN`; a pose with keypoints feeds the recognizer,
     * whose action (if any) is recorded; detections are stored only on every fifth frame.
     * The extractor's and the detector's outputs are parameters.
     */
    method ProcessFrame(frameNum: int, pose: Pose, objects: seq<Obj>)
      requires Valid()
      requires DetectedBefore(recognizer.actionsDetected, frameNum)
      modifies this`poseData, this`objectData, recognizer
      ensures Valid()
      ensures poseData == Dict.Put(old(poseData), PyFrameKey(frameNum), pose)
      ensures objectData == if frameNum % ObjectStride == 0 then Dict.Put(old(objectData), PyFrameKey(frameNum), objects) else old(objectData)
      ensures DetectedBefore(recognizer.actionsDetected, frameNum + 1)
      ensures (recognizer.poseBuffer, recognizer.actionsDetected) ==
        RecognizerStep(old(recognizer.poseBuffer), old(recognizer.actionsDetected), frameNum, pose.keypoints)
    {
      var frameKey := PyFrameKey(frameNum);
      poseData := Dict.Put(poseData, frameKey, pose);
      FeedRecognizer(frameNum, pose.keypoints);
      if frameNum % ObjectStride == 0 {
        objectData := Dict.Put(objectData, frameKey, objects);
      }
    }

    /** The recognizer's part of one frame: a pose with keypoints is buffered and classified. */
    method FeedRecognizer(frameNum: int, keypoints: Keypoints)
      requires recognizer.Valid()
      requires DetectedBefore(recognizer.actionsDetected, frameNum)
      modifies recognizer
      ensures recognizer.Valid() && DetectedBefore(recognizer.actionsDetected, frameNum + 1)
      ensures (recognizer.poseBuffer, recognizer.actionsDetected) ==
        RecognizerStep(old(recognizer.poseBuffer), old(recognizer.actionsDetected), frameNum, keypoints)
    {
      RecognizerStepProperties(recognizer.poseBuffer, recognizer.actionsDetected, frameNum, keypoints);
      if |keypoints| > 0 {
        recognizer.AddPose(frameNum, keypoints);
        var action := recognizer.RecognizeAction();
        if action.Some? {
          AppendIncreasing(recognizer.actionsDetected, Detection(frameNum, action.value));
          recognizer.actionsDetected := recognizer.actionsDetected + [Detection(frameNum, action.value)];
        }
      }
    }

    /**
     * Processes the frames from number 0 until the input ends or 300 frames are done, then
     * stores the grouped segments. Each element of `frames` is what the extractor and the
     * detector return for that frame; `totalFrames` is the frame count the container reports.
     */
    method Process(frames: seq<(Pose, seq<Obj>)>, totalFrames: int) returns (ok: bool, processed: nat)
      requires Valid()
      requires poseData == [] && objectData == [] && recognizer.actionsDetected == [] && actionData == []
      modifies this`poseData, this`objectData, this`actionData, recognizer
      ensures Valid()
      ensures !ok <==> totalFrames == 0 && |frames| > 0
      ensures !ok ==> processed == 1 && actionData == []
      ensures ok ==> processed == if |frames| < FrameLimit then |frames| else FrameLimit
      ensures processed <= |frames| && StoredPoses(poseData, frames, processed)
      ensures StoredObjects(objectData, frames, processed)
      ensures (recognizer.poseBuffer, recognizer.actionsDetected) == Recognized(old(recognizer.poseBuffer), frames, processed)
      ensures ok ==> actionData == SegmentActions(Runs(ObservationsOf(Recognized(old(recognizer.poseBuffer), frames, processed).1)))
    {
      ok, processed := ReadFrames(frames, totalFrames);
      if ok {
        var segments := recognizer.GetActionSegments();
        actionData := SegmentActions(segments);
      }
    }

    /** Frame `n` of the input through `ProcessFrame`: the stored tracks and the recognizer move on by one frame. */
    method ReadFrame(frames: seq<(Pose, seq<Obj>)>, n: nat, ghost start: seq<BufferedPose>)
      requires Valid() && n < |frames|
      requires StoredPoses(poseData, frames, n) && StoredObjects(objectData, frames, n)
      requires DetectedBefore(recognizer.actionsDetected, n)
      requires (recognizer.poseBuffer, recognizer.actionsDetected) == Recognized(start, frames, n)
      modifies this`poseData, this`objectData, recognizer
      ensures Valid()
      ensures StoredPoses(poseData, frames, n + 1) && StoredObjects(objectData, frames, n + 1)
      ensures DetectedBefore(recognizer.actionsDetected, n + 1)
      ensures (recognizer.poseBuffer, recognizer.actionsDetected) == Recognized(start, frames, n + 1)
    {
      StoredPosesStep(poseData, frames, n);
      StoredObjectsStep(objectData, frames, n);
      RecognizedStep(start, frames, n);
      ProcessFrame(n, frames[n].0, frames[n].1);
    }

    /**
     * The frame loop of `Process`. The progress report on every 30th frame divides by the
     * reported frame count, so a count of 0 aborts the run right after frame 0.
     */
    method ReadFrames(frames: seq<(Pose, seq<Obj>)>, totalFrames: int) returns (ok: bool, processed: nat)
      requires Valid()
      requires poseData == [] && objectData == [] && recognizer.actionsDetected == []
      modifies this`poseData, this`objectData, recognizer
      ensures Valid()
      ensures !ok <==> totalFrames == 0 && |frames| > 0
      ensures !ok ==> processed == 1
      ensures ok ==> processed == if |frames| < FrameLimit then |frames| else FrameLimit
      ensures processed <= |frames| && StoredPoses(poseData, frames, processed)
      ensures StoredObjects(objectData, frames, processed)
      ensures (recognizer.poseBuffer, recognizer.actionsDetected) == Recognized(old(recognizer.poseBuffer), frames, processed)
    {
      ghost var start := recognizer.poseBuffer;
      var frameNum := 0;
      while frameNum < |frames|
        invariant Valid()
        invariant 0 <= frameNum <= |frames| && frameNum < FrameLimit
        invariant totalFrames == 0 ==> frameNum == 0
        invariant StoredPoses(poseData, frames, frameNum)
        invariant StoredObjects(objectData, frames, frameNum)
        invariant DetectedBefore(recognizer.actionsDetected, frameNum)
        invariant (recognizer.poseBuffer, recognizer.actionsDetected) == Recognized(start, frames, frameNum)
        decreases |frames| - frameNum
      {
        ReadFrame(frames, frameNum, start);
        var aborted := frameNum % ProgressStride == 0 && totalFrames == 0;
        frameNum := frameNum + 1;
        if aborted {
          return false, frameNum;
        }
        if frameNum >= FrameLimit {
          break;
        }
      }
      ok, processed := true, frameNum;
    }
  }

  /** The first `n` frames' poses, in frame order, each under its padded key. */
  predicate StoredPoses(d: PoseTrack, frames: seq<(Pose, seq<Obj>)>, n: nat)
  {
    n <= |frames| && |d| == n && forall j :: 0 <= j < n ==> d[j] == (PyFrameKey(j), frames[j].0)
  }

  lemma StoredPosesStep(d: PoseTrack, frames: seq<(Pose, seq<Obj>)>, n: nat)
    requires StoredPoses(d, frames, n) && n < |frames|
    ensures StoredPoses(Dict.Put(d, PyFrameKey(n), frames[n].0), frames, n + 1)
  {
    NewKey(d, n);
    Dict.PutNew(d, PyFrameKey(n), frames[n].0);
  }

  lemma StoredObjectsStep(d: ObjectTrack, frames: seq<(Pose, seq<Obj>)>, n: nat)
    requires StoredObjects(d, frames, n) && n < |frames|
    ensures StoredObjects(if n % ObjectStride == 0 then Dict.Put(d, PyFrameKey(n), frames[n].1) else d, frames, n + 1)
  {
    if n % ObjectStride == 0 {
      assert n == ObjectStride * |d| by {
        assert n == ObjectStride * (n / ObjectStride);
      }
      NextObjectKeyIsNew(d, frames, n);
      Dict.PutNew(d, PyFrameKey(n), frames[n].1);
      StoredObjectsAppend(d, frames, n);
    } else {
      assert n != ObjectStride * |d|;
    }
  }

  lemma NextObjectKeyIsNew(d: ObjectTrack, frames: seq<(Pose, seq<Obj>)>, n: nat)
    requires StoredObjects(d, frames, n) && n == ObjectStride * |d|
    ensures !Dict.HasKey(d, PyFrameKey(n))
  {
    forall i | 0 <= i < |d| ensures d[i].0 != PyFrameKey(n) {
      if d[i].0 == PyFrameKey(n) {
        PyFrameKeyInjective(ObjectStride * i, n);
      }
    }
  }

  lemma StoredObjectsAppend(d: ObjectTrack, frames: seq<(Pose, seq<Obj>)>, n: nat)
    requires StoredObjects(d, frames, n) && n == ObjectStride * |d| && n < |frames|
    ensures StoredObjects(d + [(PyFrameKey(n), frames[n].1)], frames, n + 1)
  {
    var r := d + [(PyFrameKey(n), frames[n].1)];
    assert ObjectStride * |r| == n + ObjectStride;
    forall i | 0 <= i < |r| ensures r[i] == (PyFrameKey(ObjectStride * i), frames[ObjectStride * i].1) {
      if i < |d| {
        assert r[i] == d[i];
      } else {
        assert i == |d| && r[i] == (PyFrameKey(n), frames[n].1);
      }
    }
  }

  /** The key of the next frame is new, so storing it appends. */
  lemma NewKey<V>(d: Dict.Dict<V>, n: nat)
    requires |d| == n && forall j :: 0 <= j < n ==> d[j].0 == PyFrameKey(j)
    ensures !Dict.HasKey(d, PyFrameKey(n))
  {
    forall j | 0 <= j < n ensures d[j].0 != PyFrameKey(n) {
      if d[j].0 == PyFrameKey(n) {
        PyFrameKeyInjective(j, n);
      }
    }
  }
}
