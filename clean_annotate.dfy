// The redesigned annotation page: the conversion of the backend's tracks into the page's
// own shapes, the choice of the object frame to draw, and which actions it shows as active.
// Converted tracks are JavaScript objects keyed by the number read back from the frame key;
// None stands for the key `NaN` that `parseInt` yields when no number can be read.
module CleanAnnotate {
  import opened Wrappers
  import Dict
  import opened Text
  import opened Annotation
  import opened FrameKeys
  import ActionRules
  import Recognizer

  const VideoWidth: real := 1920.0
  const VideoHeight: real := 1080.0
  const DefaultConfidence: real := 0.9
  const DefaultColor := "bg-blue-500"

  /** `v || 0.9` for a number: an absent or zero value becomes the default. */
  function OrDefault(v: Option<real>): (r: real)
    ensures v.Some? && v.value != 0.0 ==> r == v.value
    ensures v.None? || v.value == 0.0 ==> r == DefaultConfidence
  {
    if v.Some? && v.value != 0.0 then v.value else DefaultConfidence
  }

  datatype UiKeypoint = UiKeypoint(x: real, y: real, z: real, name: string, confidence: real)

  /** A point is taken to be normalised when both coordinates are at most 1. */
  predicate Normalized(c: Coord) { c.x <= 1.0 && c.y <= 1.0 }

  function ConvertKeypoint(keypoint: string, c: Coord, frameConfidence: Option<real>): (k: UiKeypoint)
  {
    var x := if Normalized(c) then c.x * VideoWidth else c.x;
    var y := if Normalized(c) then c.y * VideoHeight else c.y;
    UiKeypoint(x, y, if c.z.Some? then c.z.value else 0.0, keypoint, OrDefault(frameConfidence))
  }

  /** A normalised point lands inside the assumed 1920x1080 picture; a pixel point is copied. */
  lemma ConvertKeypointPlacement(keypoint: string, c: Coord, frameConfidence: Option<real>)
    ensures var k := ConvertKeypoint(keypoint, c, frameConfidence);
      k.name == keypoint &&
      (0.0 <= c.x <= 1.0 && 0.0 <= c.y <= 1.0 ==> 0.0 <= k.x <= VideoWidth && 0.0 <= k.y <= VideoHeight) &&
      (!Normalized(c) ==> k.x == c.x && k.y == c.y) &&
      (c.z.None? ==> k.z == 0.0)
  {
  }

  /** The keypoints of one frame, converted in entry order. */
  function ConvertedKeypoints(p: Pose): (r: seq<UiKeypoint>)
    ensures |r| == |p.keypoints|
    ensures forall i :: 0 <= i < |r| ==> r[i] == ConvertKeypoint(p.keypoints[i].0, p.keypoints[i].1, p.confidence)
    decreases |p.keypoints|
  {
    if p.keypoints == [] then []
    else
      var n := |p.keypoints| - 1;
      ConvertedKeypoints(Pose(p.keypoints[..n], p.confidence)) + [ConvertKeypoint(p.keypoints[n].0, p.keypoints[n].1, p.confidence)]
  }

  /** The inner `forEach` of `convertPoseData`. */
  method ConvertFrameKeypoints(p: Pose) returns (keypoints: seq<UiKeypoint>)
    ensures keypoints == ConvertedKeypoints(p)
  {
    keypoints := [];
    for i := 0 to |p.keypoints|
      invariant |keypoints| == i
      invariant forall j :: 0 <= j < i ==> keypoints[j] == ConvertKeypoint(p.keypoints[j].0, p.keypoints[j].1, p.confidence)
    {
      var (keypoint, coords) := p.keypoints[i];
      var x := coords.x;
      var y := coords.y;
      var isNormalized := x <= 1.0 && y <= 1.0;
      if isNormalized {
        x := x * VideoWidth;
        y := y * VideoHeight;
      }
      keypoints := keypoints + [UiKeypoint(x, y, if coords.z.Some? then coords.z.value else 0.0, keypoint, OrDefault(p.confidence))];
    }
  }

  /**
   * Assigning converted values in entry order: a later entry whose key reads back as the same
   * number overwrites an earlier one.
   */
  function Rekeyed<V, W>(track: Dict.Dict<V>, convert: V -> W): (m: map<Option<int>, W>)
    ensures forall k :: k in m <==> exists i :: 0 <= i < |track| && JsFrameNumber(track[i].0) == k
  {
    if track == [] then map[]
    else
      var n := |track| - 1;
      var m := Rekeyed(track[..n], convert);
      assert forall i :: 0 <= i < n ==> track[..n][i] == track[i];
      m[JsFrameNumber(track[n].0) := convert(track[n].1)]
  }

  /** The entry a key ends up with is the last entry whose key reads back as that number. */
  lemma {:induction false} RekeyedLast<V, W>(track: Dict.Dict<V>, convert: V -> W, i: nat)
    requires i < |track|
    requires forall j :: i < j < |track| ==> JsFrameNumber(track[j].0) != JsFrameNumber(track[i].0)
    ensures JsFrameNumber(track[i].0) in Rekeyed(track, convert)
    ensures Rekeyed(track, convert)[JsFrameNumber(track[i].0)] == convert(track[i].1)
  {
    var n := |track| - 1;
    var init := track[..n];
    var m := Rekeyed(init, convert);
    assert Rekeyed(track, convert) == m[JsFrameNumber(track[n].0) := convert(track[n].1)];
    if i < n {
      assert init[i] == track[i];
      assert forall j :: i < j < n ==> init[j] == track[j];
      RekeyedLast(init, convert, i);
    }
  }

  /** `convertPoseData`: each frame's converted keypoints under its frame number. */
  function ConvertedPose(track: PoseTrack): map<Option<int>, seq<UiKeypoint>>
  {
    Rekeyed(track, ConvertedKeypoints)
  }

  /** `convertPoseData`, the outer `forEach`. */
  method ConvertPoseData(backendPose: PoseTrack) returns (converted: map<Option<int>, seq<UiKeypoint>>)
    ensures converted == ConvertedPose(backendPose)
  {
    converted := map[];
    for i := 0 to |backendPose|
      invariant converted == Rekeyed(backendPose[..i], ConvertedKeypoints)
    {
      var (frameKey, frameData) := backendPose[i];
      var frameNum := JsFrameNumber(frameKey);
      var keypoints := ConvertFrameKeypoints(frameData);
      assert backendPose[..i + 1][..i] == backendPose[..i];
      converted := converted[frameNum := keypoints];
    }
    assert backendPose[..|backendPose|] == backendPose;
  }

  /** For keys built by the backend, every frame is found under its own number. */
  lemma ConvertedPoseFrames(track: PoseTrack, frames: seq<nat>, i: nat)
    requires |frames| == |track| && i < |track|
    requires forall j :: 0 <= j < |track| ==> track[j].0 == PyFrameKey(frames[j])
    requires forall j :: i < j < |track| ==> frames[j] != frames[i]
    ensures Some(frames[i] as int) in ConvertedPose(track)
    ensures ConvertedPose(track)[Some(frames[i] as int)] == ConvertedKeypoints(track[i].1)
  {
    forall j | 0 <= j < |track| ensures JsFrameNumber(track[j].0) == Some(frames[j] as int) {
      JsFrameNumberOfKey(frames[j]);
    }
    RekeyedLast(track, ConvertedKeypoints, i);
  }

  /** A box as the page draws it: corner, size, label, confidence. */
  datatype UiBox = UiBox(x: real, y: real, width: real, height: real, name: string, confidence: real)

  function ConvertBox(o: Obj): (b: UiBox)
    ensures b.x + b.width == o.bbox.x2 && b.y + b.height == o.bbox.y2
    ensures b.x == o.bbox.x1 && b.y == o.bbox.y1 && b.name == o.name
  {
    UiBox(o.bbox.x1, o.bbox.y1, o.bbox.x2 - o.bbox.x1, o.bbox.y2 - o.bbox.y1, o.name, OrDefault(Some(o.confidence)))
  }

  function ConvertedBoxes(objs: seq<Obj>): (r: seq<UiBox>)
    ensures |r| == |objs| && forall i :: 0 <= i < |objs| ==> r[i] == ConvertBox(objs[i])
  {
    if objs == [] then [] else ConvertedBoxes(objs[..|objs| - 1]) + [ConvertBox(objs[|objs| - 1])]
  }

  /** `convertObjectData`: each frame's converted boxes under its frame number. */
  function ConvertedObjects(track: ObjectTrack): map<Option<int>, seq<UiBox>>
  {
    Rekeyed(track, ConvertedBoxes)
  }

  /** The inner `forEach` of `convertObjectData`. */
  method ConvertFrameBoxes(objects: seq<Obj>) returns (convertedFrame: seq<UiBox>)
    ensures convertedFrame == ConvertedBoxes(objects)
  {
    convertedFrame := [];
    for j := 0 to |objects|
      invariant |convertedFrame| == j && forall k :: 0 <= k < j ==> convertedFrame[k] == ConvertBox(objects[k])
    {
      var obj := objects[j];
      convertedFrame := convertedFrame + [UiBox(obj.bbox.x1, obj.bbox.y1, obj.bbox.x2 - obj.bbox.x1,
                                                obj.bbox.y2 - obj.bbox.y1, obj.name, OrDefault(Some(obj.confidence)))];
    }
  }

  /** `convertObjectData`, the outer `forEach`. */
  method ConvertObjectData(backendObjects: ObjectTrack) returns (converted: map<Option<int>, seq<UiBox>>)
    ensures converted == ConvertedObjects(backendObjects)
  {
    converted := map[];
    for i := 0 to |backendObjects|
      invariant converted == Rekeyed(backendObjects[..i], ConvertedBoxes)
    {
      var (frameKey, objects) := backendObjects[i];
      var frameNum := JsFrameNumber(frameKey);
      var convertedFrame := ConvertFrameBoxes(objects);
      assert backendObjects[..i + 1][..i] == backendObjects[..i];
      converted := converted[frameNum := convertedFrame];
    }
    assert backendObjects[..|backendObjects|] == backendObjects;
  }

  /** The colour table of `convertActionData`, keyed by lower-cased label. */
  const ActionColors: Dict.Dict<string> := [
    ("stand", "bg-gray-500"), ("standing", "bg-gray-500"),
    ("walk", "bg-blue-500"), ("walking", "bg-blue-500"),
    ("reach", "bg-green-500"), ("reaching", "bg-green-500"),
    ("pick", "bg-purple-500"), ("picking", "bg-purple-500"),
    ("wave", "bg-yellow-500"), ("waving", "bg-yellow-500"),
    ("sit", "bg-red-500"), ("sitting", "bg-red-500"),
    ("grasp", "bg-indigo-500"), ("grasping", "bg-indigo-500"),
    ("lift", "bg-pink-500"), ("lifting", "bg-pink-500")]

  function ColorOf(actionLabel: string): (c: string)
    ensures Dict.HasKey(ActionColors, Lower(actionLabel)) ==> c == Dict.Get(ActionColors, Lower(actionLabel)).value
    ensures !Dict.HasKey(ActionColors, Lower(actionLabel)) ==> c == DefaultColor
  {
    var found := Dict.Get(ActionColors, Lower(actionLabel));
    if found.Some? then found.value else DefaultColor
  }

  /** A label written in lower-case letters is looked up as it is. */
  lemma LowerLabel(name: string)
    requires forall i :: 0 <= i < |name| ==> 'a' <= name[i] <= 'z'
    ensures Lower(name) == name
  {
    LowerOfLower(name);
  }

  /** A lower-case label first listed at position `i` is drawn in that entry's colour. */
  lemma ColourAt(name: string, i: int)
    requires 0 <= i < |ActionColors| && ActionColors[i].0 == name
    requires forall j :: 0 <= j < i ==> ActionColors[j].0 != name
    requires forall k :: 0 <= k < |name| ==> 'a' <= name[k] <= 'z'
    ensures ColorOf(name) == ActionColors[i].1
  {
    LowerLabel(name);
    Dict.GetFirst(ActionColors, name, i);
  }

  /** A lower-case label the table does not list is drawn in the default colour. */
  lemma UnlistedDefault(name: string)
    requires forall j :: 0 <= j < |ActionColors| ==> ActionColors[j].0 != name
    requires forall k :: 0 <= k < |name| ==> 'a' <= name[k] <= 'z'
    ensures ColorOf(name) == DefaultColor
  {
    LowerLabel(name);
  }

  /**
   * Every label the processing pipeline's recognizer produces is listed in the page's colour
   * table, and only walk is drawn in the blue that also stands for an unknown label.
   */
  lemma RecognizerLabelsListed(m: Recognizer.Movements)
    ensures Dict.HasKey(ActionColors, Lower(Recognizer.Classify(m)))
    ensures ColorOf(Recognizer.Classify(m)) == DefaultColor <==> Recognizer.Classify(m) == "walk"
  {
    var r := Recognizer.Classify(m);
    if r == "stand" { StandColour(); }
    else if r == "walk" { WalkColour(); }
    else if r == "reach" { ReachColour(); }
    else if r == "pick" { PickColour(); }
    else if r == "wave" { WaveColour(); }
    else { assert r == "sit"; SitColour(); }
  }

  lemma StandColour()
    ensures Dict.HasKey(ActionColors, Lower("stand")) && ColorOf("stand") != DefaultColor
  { ColourAt("stand", 0); }
  lemma WalkColour()
    ensures Dict.HasKey(ActionColors, Lower("walk")) && ColorOf("walk") == DefaultColor
  { ColourAt("walk", 2); }
  lemma ReachColour()
    ensures Dict.HasKey(ActionColors, Lower("reach")) && ColorOf("reach") != DefaultColor
  { ColourAt("reach", 4); }
  lemma PickColour()
    ensures Dict.HasKey(ActionColors, Lower("pick")) && ColorOf("pick") != DefaultColor
  { ColourAt("pick", 6); }
  lemma WaveColour()
    ensures Dict.HasKey(ActionColors, Lower("wave")) && ColorOf("wave") != DefaultColor
  { ColourAt("wave", 8); }
  lemma SitColour()
    ensures Dict.HasKey(ActionColors, Lower("sit")) && ColorOf("sit") != DefaultColor
  { ColourAt("sit", 10); }
  lemma PlaceColour() ensures ColorOf("place") == DefaultColor { UnlistedDefault("place"); }
  lemma IdleColour() ensures ColorOf("idle") == DefaultColor { UnlistedDefault("idle"); }

  /**
   * Of the extraction service's rule labels, reach and pick get a colour of their own; place
   * and idle are not in the table and fall back to blue, the colour walk is listed with, so
   * the page draws walk, place and idle alike.
   */
  lemma RuleLabelsDrawnBlue(pose: Pose, objects: seq<Obj>)
    ensures var r := ActionRules.DetectAction(pose, objects);
      ColorOf(r) == DefaultColor <==> r in ["place", "walk", "idle"]
  {
    RuleLabelColour(ActionRules.DetectAction(pose, objects));
  }

  lemma RuleLabelColour(r: string)
    requires r in ["reach", "pick", "place", "walk", "idle"]
    ensures ColorOf(r) == DefaultColor <==> r in ["place", "walk", "idle"]
  {
    if r == "reach" { ReachColour(); }
    else if r == "pick" { PickColour(); }
    else if r == "walk" { WalkColour(); }
    else if r == "place" { PlaceColour(); }
    else { assert r == "idle"; IdleColour(); }
  }

  /**
   * A converted action: the backend's fields, spread unchanged, plus the colour. The page's
   * overlay reads fields `start` and `end`, which the backend's objects do not have.
   */
  datatype UiAction = UiAction(name: string, startFrame: Option<int>, endFrame: Option<int>,
                               start: Option<int>, end: Option<int>, confidence: real, color: string)

  function ConvertAction(a: Action): UiAction
  {
    UiAction(a.name, Some(a.startFrame), Some(a.endFrame), None, None, a.confidence, ColorOf(a.name))
  }

  /** `convertActionData`: one converted action per backend action, in order. */
  function ConvertedActions(actions: seq<Action>): (r: seq<UiAction>)
    ensures |r| == |actions|
    ensures forall i :: 0 <= i < |actions| ==> r[i] == ConvertAction(actions[i])
  {
    if actions == [] then [] else [ConvertAction(actions[0])] + ConvertedActions(actions[1..])
  }

  /** Conversion keeps every backend field and adds a colour, so the backend list is recovered. */
  lemma {:induction false} ConvertedActionsKeepFields(actions: seq<Action>)
    ensures forall i :: 0 <= i < |actions| ==>
      var u := ConvertedActions(actions)[i];
      Action(u.name, u.startFrame.value, u.endFrame.value, u.confidence) == actions[i]
  {
  }

  // ---------------------------------------------------------------- drawing decisions

  /**
   * The walk down from the current frame to the nearest frame that has object data; -1 when
   * none at or below it exists, or the current frame itself when it is negative.
   */
  method ObjectFrame(objects: map<Option<int>, seq<UiBox>>, frame: int) returns (objectFrame: int)
    ensures frame < 0 ==> objectFrame == frame
    ensures frame >= 0 ==> -1 <= objectFrame <= frame
    ensures objectFrame >= 0 ==> Some(objectFrame) in objects
    ensures forall k :: objectFrame < k <= frame && k >= 0 ==> Some(k) !in objects
  {
    objectFrame := frame;
    while objectFrame >= 0 && Some(objectFrame) !in objects
      invariant frame >= 0 ==> -1 <= objectFrame <= frame
      invariant frame < 0 ==> objectFrame == frame
      invariant forall k :: objectFrame < k <= frame && k >= 0 ==> Some(k) !in objects
      decreases objectFrame + 1
    {
      objectFrame := objectFrame - 1;
    }
  }

  /** The boxes drawn for a frame: those of the frame the walk stops at, if it has data. */
  method DrawnBoxes(objects: map<Option<int>, seq<UiBox>>, frame: int) returns (boxes: seq<UiBox>)
    ensures (exists k :: 0 <= k <= frame && Some(k) in objects) ==>
      exists k :: 0 <= k <= frame && Some(k) in objects && boxes == objects[Some(k)] &&
        forall j :: k < j <= frame ==> Some(j) !in objects
    ensures (forall k :: 0 <= k <= frame ==> Some(k) !in objects) && Some(-1) !in objects && frame >= 0 ==> boxes == []
  {
    var objectFrame := ObjectFrame(objects, frame);
    if Some(objectFrame) in objects {
      boxes := objects[Some(objectFrame)];
    } else {
      boxes := [];
    }
  }

  /** `Math.floor(currentTime * 30)`: the 0-based frame at a time. */
  function CurrentFrame(t: real): (f: int)
    ensures f as real <= t * 30.0 < f as real + 1.0
  {
    (t * 30.0).Floor
  }

  /** `seekVideo`: the new time is the old one moved by `seconds`, kept within `[0, duration]`. */
  function SeekTarget(current: real, seconds: real, duration: real): (t: real)
    ensures duration >= 0.0 ==> 0.0 <= t <= duration
    ensures 0.0 <= current + seconds <= duration ==> t == current + seconds
    ensures duration >= 0.0 && current + seconds < 0.0 ==> t == 0.0
    ensures current + seconds > duration && duration >= 0.0 ==> t == duration
  {
    var moved := current + seconds;
    var capped := if duration < moved then duration else moved;
    if 0.0 > capped then 0.0 else capped
  }

  /** The active-action test as the page writes it: `frame >= action.start && frame <= action.end`. */
  predicate ShownAsWritten(a: UiAction, frame: int)
  {
    a.start.Some? && a.end.Some? && a.start.value <= frame <= a.end.value
  }

  /** The "Current" label: the first shown action's label, or 'none' (an empty label also reads 'none'). */
  function CurrentLabelAsWritten(actions: seq<UiAction>, frame: int): string
  {
    if actions == [] then "none"
    else if ShownAsWritten(actions[0], frame) then (if actions[0].name == "" then "none" else actions[0].name)
    else CurrentLabelAsWritten(actions[1..], frame)
  }

  /** Backend actions are never shown as active: the "Current" label is always 'none'. */
  lemma {:induction false} CurrentLabelAsWrittenIsNone(actions: seq<Action>, frame: int)
    ensures CurrentLabelAsWritten(ConvertedActions(actions), frame) == "none"
    decreases |actions|
  {
    if actions != [] {
      CurrentLabelAsWrittenIsNone(actions[1..], frame);
    }
  }

  /** For instance a walk over frames 0..10 is not reported at frame 5. */
  lemma ActiveWalkNotShown()
    ensures ActiveAt(Action("walk", 0, 10, 0.9), 5)
    ensures CurrentLabelAsWritten(ConvertedActions([Action("walk", 0, 10, 0.9)]), 5) == "none"
  {
    CurrentLabelAsWrittenIsNone([Action("walk", 0, 10, 0.9)], 5);
  }

  /** The active-action test on the fields the converted actions carry. */
  predicate Shown(a: UiAction, frame: int)
  {
    a.startFrame.Some? && a.endFrame.Some? && a.startFrame.value <= frame <= a.endFrame.value
  }

  /** The "Current" label read from `start_frame` and `end_frame`. */
  function CurrentLabel(actions: seq<UiAction>, frame: int): string
  {
    if actions == [] then "none"
    else if Shown(actions[0], frame) then (if actions[0].name == "" then "none" else actions[0].name)
    else CurrentLabel(actions[1..], frame)
  }

  /** Read from the right fields, the label is that of the first action active at the frame. */
  lemma {:induction false} CurrentLabelIsFirstActive(actions: seq<Action>, frame: int)
    ensures var first := FirstActiveAt(actions, frame);
      CurrentLabel(ConvertedActions(actions), frame) ==
        (if first.None? || first.value.name == "" then "none" else first.value.name)
    decreases |actions|
  {
    if actions != [] {
      CurrentLabelIsFirstActive(actions[1..], frame);
    }
  }

  /** Read from the right fields, the overlay shows exactly the actions active at the frame. */
  lemma ShownIffActive(a: Action, frame: int)
    ensures Shown(ConvertAction(a), frame) <==> ActiveAt(a, frame)
    ensures !ShownAsWritten(ConvertAction(a), frame)
  {
  }
}
