// The Konva pose overlay of one frame: the skeleton segments it draws, and the drag of a
// keypoint, which keeps the keypoint's depth. It draws at scale 1, so the drawn points
// are the stored coordinates.
module PoseOverlay {
  import opened Wrappers
  import Dict
  import opened Annotation
  import opened Skeleton

  const Scale := 1.0

  /** The sixteen connections this overlay joins (the canvas overlay also joins the nose to the shoulders). */
  const Connections: seq<Connection> := [
    ("nose", "left_eye"), ("nose", "right_eye"), ("left_eye", "left_ear"), ("right_eye", "right_ear"),
    ("left_shoulder", "right_shoulder"), ("left_shoulder", "left_elbow"), ("left_elbow", "left_wrist"),
    ("right_shoulder", "right_elbow"), ("right_elbow", "right_wrist"), ("left_shoulder", "left_hip"),
    ("right_shoulder", "right_hip"), ("left_hip", "right_hip"), ("left_hip", "left_knee"),
    ("left_knee", "left_ankle"), ("right_hip", "right_knee"), ("right_knee", "right_ankle")]

  /** One drawn line: its two end points. */
  datatype Segment = Segment(x1: real, y1: real, x2: real, y2: real)

  /**
   * The line of a connection at the overlay's scale, between its endpoints' stored points;
   * only connections with both endpoints present are drawn, and for them both lookups succeed.
   */
  function SegmentOf(kps: Keypoints, e: Connection): (s: Segment)
    ensures Dict.HasKey(kps, e.0) && Dict.HasKey(kps, e.1) ==>
      var a := Dict.Get(kps, e.0).value; var b := Dict.Get(kps, e.1).value;
      s == Segment(a.x, a.y, b.x, b.y)
  {
    var a := Dict.Get(kps, e.0);
    var b := Dict.Get(kps, e.1);
    if a.Some? && b.Some? then Segment(a.value.x * Scale, a.value.y * Scale, b.value.x * Scale, b.value.y * Scale)
    else Segment(0.0, 0.0, 0.0, 0.0)
  }

  /** The segments of a list of connections, in order. */
  function Segments(kps: Keypoints, edges: seq<Connection>): (r: seq<Segment>)
    ensures |r| == |edges| && forall i :: 0 <= i < |edges| ==> r[i] == SegmentOf(kps, edges[i])
  {
    if edges == [] then [] else Segments(kps, edges[..|edges| - 1]) + [SegmentOf(kps, edges[|edges| - 1])]
  }

  lemma SegmentsSnoc(kps: Keypoints, edges: seq<Connection>, e: Connection)
    ensures Segments(kps, edges + [e]) == Segments(kps, edges) + [SegmentOf(kps, e)]
  {
    assert (edges + [e])[..|edges|] == edges;
  }

  /**
   * `getConnectionPoints` over a connection table: one segment per connection whose endpoints
   * are both present, in table order.
   */
  method ConnectionPoints(table: seq<Connection>, kps: Keypoints) returns (points: seq<Segment>)
    ensures |points| == |DrawnEdges(table, kps)|
    ensures forall i :: 0 <= i < |points| ==> points[i] == SegmentOf(kps, DrawnEdges(table, kps)[i])
  {
    points := [];
    var i := 0;
    while i < |table|
      invariant 0 <= i <= |table|
      invariant points == Segments(kps, DrawnEdges(table[..i], kps))
    {
      var e := table[i];
      DrawnEdgesPrefix(table, i, kps);
      if Dict.HasKey(kps, e.0) && Dict.HasKey(kps, e.1) {
        SegmentsSnoc(kps, DrawnEdges(table[..i], kps), e);
        points := points + [SegmentOf(kps, e)];
      }
      i := i + 1;
    }
    assert table[..i] == table;
  }

  /** What the overlay renders: nothing without frame data, the skeleton's segments otherwise. */
  method Render(frameData: Option<Pose>) returns (drawn: Option<seq<Segment>>)
    ensures drawn.None? <==> frameData.None?
    ensures drawn.Some? ==> |drawn.value| == |DrawnEdges(Connections, frameData.value.keypoints)|
    ensures drawn.Some? ==> forall i :: 0 <= i < |drawn.value| ==>
      drawn.value[i] == SegmentOf(frameData.value.keypoints, DrawnEdges(Connections, frameData.value.keypoints)[i])
  {
    if frameData.None? {
      return None;
    }
    var points := ConnectionPoints(Connections, frameData.value.keypoints);
    return Some(points);
  }

  /** `keypoints[name][2] || 0`: a missing or zero depth reads as 0. */
  function DepthOrZero(c: Coord): (z: real)
    ensures c.z.Some? && c.z.value != 0.0 ==> z == c.z.value
    ensures c.z.None? || c.z.value == 0.0 ==> z == 0.0
  {
    if c.z.Some? then c.z.value else 0.0
  }

  /** The dragged keypoint at its new position with its depth kept; every other keypoint as it was. */
  function DraggedKeypoints(kps: Keypoints, name: string, x: real, y: real): (r: Keypoints)
    requires Dict.HasKey(kps, name)
    ensures Dict.Get(r, name) == Some(Coord(x, y, Some(DepthOrZero(Dict.Get(kps, name).value))))
    ensures forall k :: k != name ==> Dict.Get(r, k) == Dict.Get(kps, k)
    ensures Dict.Keys(r) == Dict.Keys(kps)
  {
    var c := Coord(x, y, Some(DepthOrZero(Dict.Get(kps, name).value)));
    forall k | k != name
      ensures Dict.Get(Dict.Put(kps, name, c), k) == Dict.Get(kps, k)
    {
      Dict.GetPut(kps, name, c, k);
    }
    Dict.GetPut(kps, name, c, name);
    Dict.PutKeys(kps, name, c);
    Dict.Put(kps, name, c)
  }

  class Overlay {
    var selectedKeypoint: Option<string>
    var isDragging: bool

    constructor ()
      ensures selectedKeypoint.None? && !isDragging
    {
      selectedKeypoint := None;
      isDragging := false;
    }

    /** `handleKeypointDragStart`: the keypoint is selected and a drag begins. */
    method DragStart(name: string)
      modifies this
      ensures selectedKeypoint == Some(name) && isDragging
    {
      selectedKeypoint := Some(name);
      isDragging := true;
    }

    /**
     * `handleKeypointDragEnd`: the frame's keypoints with the dragged one moved are sent; the
     * drag ends and the selection stays.
     */
    method DragEnd(kps: Keypoints, name: string, x: real, y: real) returns (sent: Keypoints)
      requires Dict.HasKey(kps, name)
      modifies this`isDragging
      ensures sent == DraggedKeypoints(kps, name, x, y)
      ensures !isDragging
    {
      sent := DraggedKeypoints(kps, name, x, y);
      isDragging := false;
    }
  }
}
