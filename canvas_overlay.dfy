// The canvas overlay of the annotation editor: what it draws for the selected tool, the
// scale that fits the 640x480 video into the canvas, and the drag of a keypoint as a small
// state machine (mouse down picks a keypoint, moves send edits, mouse up ends the drag).
// Pointer positions are taken in video coordinates, already divided by the scale.
module CanvasOverlay {
  import opened Wrappers
  import Dict
  import opened Annotation
  import opened FrameKeys
  import opened Skeleton

  const VideoWidth := 640.0
  const VideoHeight := 480.0
  /** A pointer hits a keypoint strictly within 10 pixels: the squared distance is below 100. */
  const HitRadiusSquared := 100.0

  /** The eighteen connections the overlay joins. */
  const Connections: seq<Connection> := [
    ("nose", "left_eye"), ("nose", "right_eye"), ("left_eye", "left_ear"), ("right_eye", "right_ear"),
    ("nose", "left_shoulder"), ("nose", "right_shoulder"), ("left_shoulder", "right_shoulder"),
    ("left_shoulder", "left_elbow"), ("left_elbow", "left_wrist"), ("right_shoulder", "right_elbow"),
    ("right_elbow", "right_wrist"), ("left_shoulder", "left_hip"), ("right_shoulder", "right_hip"),
    ("left_hip", "right_hip"), ("left_hip", "left_knee"), ("left_knee", "left_ankle"),
    ("right_hip", "right_knee"), ("right_knee", "right_ankle")]

  /** `Math.min(width / 640, height / 480)`. */
  function FitScale(canvasWidth: real, canvasHeight: real): (s: real)
    ensures s == canvasWidth / VideoWidth || s == canvasHeight / VideoHeight
    ensures VideoWidth * s <= canvasWidth && VideoHeight * s <= canvasHeight
  {
    var sx := canvasWidth / VideoWidth;
    var sy := canvasHeight / VideoHeight;
    if sx <= sy then sx else sy
  }

  /** A pointer at (x, y) is on the keypoint. */
  predicate Near(c: Coord, x: real, y: real)
  {
    (x - c.x) * (x - c.x) + (y - c.y) * (y - c.y) < HitRadiusSquared
  }

  /** Entry `i` is hit and no earlier entry is. */
  predicate EarliestHit(kps: Keypoints, i: int, x: real, y: real)
  {
    0 <= i < |kps| && Near(kps[i].1, x, y) && forall j :: 0 <= j < i ==> !Near(kps[j].1, x, y)
  }

  /** The hit test: `Object.entries(keypoints).find(...)`, the first entry hit, in entry order. */
  function FirstHit(kps: Keypoints, x: real, y: real): (r: Option<string>)
    ensures r.None? <==> forall i :: 0 <= i < |kps| ==> !Near(kps[i].1, x, y)
    ensures r.Some? ==> exists i :: EarliestHit(kps, i, x, y) && kps[i].0 == r.value
  {
    if kps == [] then None
    else if Near(kps[0].1, x, y) then
      assert EarliestHit(kps, 0, x, y);
      Some(kps[0].0)
    else
      var r := FirstHit(kps[1..], x, y);
      if r.Some? then
        var i :| EarliestHit(kps[1..], i, x, y) && kps[1..][i].0 == r.value;
        assert EarliestHit(kps, i + 1, x, y);
        r
      else
        assert forall i :: 1 <= i < |kps| ==> kps[i] == kps[1..][i - 1];
        r
  }

  /** The first keypoint hit is taken even when a later one is nearer to the pointer. */
  lemma FirstHitNotNearest()
    ensures var kps := [("a", Coord(5.0, 0.0, None)), ("b", Coord(1.0, 0.0, None))];
      FirstHit(kps, 0.0, 0.0) == Some("a") && Near(kps[1].1, 0.0, 0.0)
  {
    var kps := [("a", Coord(5.0, 0.0, None)), ("b", Coord(1.0, 0.0, None))];
    assert Near(kps[0].1, 0.0, 0.0);
  }

  /** The skeleton segments drawn: only with the pose tool and a pose, those with both endpoints. */
  function SkeletonDrawn(tool: string, pose: Option<Pose>): (r: seq<Connection>)
    ensures tool != "pose" || pose.None? ==> r == []
    ensures tool == "pose" && pose.Some? ==>
      forall e :: e in r <==> e in Connections && Dict.HasKey(pose.value.keypoints, e.0) && Dict.HasKey(pose.value.keypoints, e.1)
  {
    if tool == "pose" && pose.Some? then DrawnEdges(Connections, pose.value.keypoints) else []
  }

  /** The action indicator: with the actions tool, the first action active at the frame. */
  function Indicator(tool: string, actions: seq<Action>, frame: int): (r: Option<Action>)
    ensures tool != "actions" ==> r.None?
    ensures tool == "actions" ==> (r.None? <==> forall a :: a in actions ==> !ActiveAt(a, frame))
    ensures r.Some? ==> exists i :: EarliestActive(actions, i, frame) && actions[i] == r.value
  {
    FirstActiveIsEarliest(actions, frame);
    if tool == "actions" then FirstActiveAt(actions, frame) else None
  }

  /** `{...pose, keypoints: {...keypoints, [target]: [x, y]}}`: the dragged keypoint loses its z. */
  function MovedPose(pose: Pose, target: string, x: real, y: real): (p: Pose)
    ensures p.confidence == pose.confidence
    ensures Dict.Get(p.keypoints, target) == Some(Coord(x, y, None))
    ensures forall k :: k != target ==> Dict.Get(p.keypoints, k) == Dict.Get(pose.keypoints, k)
  {
    var kps := Dict.Put(pose.keypoints, target, Coord(x, y, None));
    DragTouchesOne(pose.keypoints, target, Coord(x, y, None));
    Pose(kps, pose.confidence)
  }

  lemma DragTouchesOne(kps: Keypoints, target: string, c: Coord)
    ensures Dict.Get(Dict.Put(kps, target, c), target) == Some(c)
    ensures forall k :: k != target ==> Dict.Get(Dict.Put(kps, target, c), k) == Dict.Get(kps, k)
  {
    forall k | k != target
      ensures Dict.Get(Dict.Put(kps, target, c), k) == Dict.Get(kps, k)
    {
      Dict.GetPut(kps, target, c, k);
    }
    Dict.GetPut(kps, target, c, target);
  }

  class Overlay {
    var isDragging: bool
    var dragTarget: Option<string>
    var scale: real

    constructor ()
      ensures !isDragging && dragTarget.None? && scale == 1.0
    {
      isDragging := false;
      dragTarget := None;
      scale := 1.0;
    }

    /** The drawing effect fits the video into the canvas. */
    method Resize(canvasWidth: real, canvasHeight: real)
      modifies this`scale
      ensures scale == FitScale(canvasWidth, canvasHeight)
    {
      scale := FitScale(canvasWidth, canvasHeight);
    }

    /** `handleMouseDown`: with the pose tool and a pose, a hit keypoint starts a drag. */
    method MouseDown(tool: string, pose: Option<Pose>, x: real, y: real)
      modifies this`isDragging, this`dragTarget
      ensures tool == "pose" && pose.Some? && FirstHit(pose.value.keypoints, x, y).Some? ==>
        isDragging && dragTarget == FirstHit(pose.value.keypoints, x, y)
      ensures !(tool == "pose" && pose.Some? && FirstHit(pose.value.keypoints, x, y).Some?) ==>
        isDragging == old(isDragging) && dragTarget == old(dragTarget)
    {
      if tool == "pose" && pose.Some? {
        var hit := FirstHit(pose.value.keypoints, x, y);
        if hit.Some? {
          isDragging := true;
          dragTarget := hit;
        }
      }
    }

    /**
     * `handleMouseMove`: while dragging a (non-empty) target over a pose, the frame's pose with
     * that keypoint moved is sent as a pose edit under the current frame's key; nothing changes here.
     */
    method MouseMove(pose: Option<Pose>, x: real, y: real, currentFrame: int) returns (edit: Option<(string, Pose)>)
      ensures edit.Some? <==> isDragging && dragTarget.Some? && dragTarget.value != [] && pose.Some?
      ensures edit.Some? ==> (edit.value.0 == JsFrameKey(currentFrame) &&
        edit.value.1 == MovedPose(pose.value, dragTarget.value, x, y))
    {
      if isDragging && dragTarget.Some? && dragTarget.value != [] && pose.Some? {
        return Some((JsFrameKey(currentFrame), MovedPose(pose.value, dragTarget.value, x, y)));
      }
      return None;
    }

    /** `handleMouseUp`: the drag is over. */
    method MouseUp()
      modifies this`isDragging, this`dragTarget
      ensures !isDragging && dragTarget.None?
    {
      isDragging := false;
      dragTarget := None;
    }
  }
}
