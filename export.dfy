// The export routes: the stored annotations of a video as one JSON document, as CSV tables
// (pose rows, object rows, action rows) or as a ROS-style YAML document, and the summary of
// what can be exported. The text the serialisers produce is not modelled; the rows and the
// entries they serialise are.
module Export {
  import opened Wrappers
  import Dict
  import opened Annotation
  import opened FrameKeys
  import opened AnnotationStore

  const NotFound := HttpError(404, "Video data not found")

  /** The sections loaded for an export: a section is present iff its file exists. */
  datatype Loaded = Loaded(pose: Option<PoseTrack>, objects: Option<ObjectTrack>, actions: Option<seq<Action>>)

  /** One CSV pose row: the frame key, the coordinate columns in keypoint order, the confidence. */
  datatype PoseRow = PoseRow(frame: string, columns: seq<(string, real)>, confidence: real)

  /** One CSV object row. */
  datatype ObjectRow = ObjectRow(frame: string, name: string, x1: real, y1: real, x2: real, y2: real, confidence: real)

  /**
   * The CSV document: a section is None when its data is absent (no header), and an empty
   * table when the data is present but has no rows (header only).
   */
  datatype CsvDoc = CsvDoc(pose: Option<seq<PoseRow>>, objects: Option<seq<ObjectRow>>, actions: Option<seq<Action>>)

  /** The YAML header block. */
  datatype RosHeader = RosHeader(seq_: int, secs: int, nsecs: int, frameId: string, version: string)

  datatype RosPose = RosPose(frame: int, timestamp: real, joints: Keypoints, confidence: real)

  datatype RosObject = RosObject(frame: int, timestamp: real, objectClass: string,
                                 xMin: real, yMin: real, xMax: real, yMax: real, confidence: real)

  datatype RosAction = RosAction(action: string, startTime: real, endTime: real,
                                 startFrame: int, endFrame: int, confidence: real)

  datatype RosDoc = RosDoc(header: RosHeader, poses: seq<RosPose>, objects: seq<RosObject>, actions: seq<RosAction>)

  datatype Body = JsonBody(annotations: Loaded) | CsvBody(csv: CsvDoc) | YamlBody(yaml: RosDoc)

  /** A download: the attachment's file name, its media type and what it carries. */
  datatype Download = Download(filename: string, mediaType: string, body: Body)

  const Formats: seq<string> := ["json", "csv", "yaml"]

  /** The timestamp of a frame at the assumed 30 frames per second. */
  function Timestamp(frame: int): real { frame as real / 30.0 }

  function MediaType(format: string): string
  {
    if format == "json" then "application/json" else if format == "csv" then "text/csv" else "text/yaml"
  }

  function Filename(videoId: string, format: string): string
  {
    videoId + "_annotations." + format
  }

  // ---------------------------------------------------------------- loading

  /** No file of the directory fails to parse. */
  predicate Readable(pose: File<PoseTrack>, objects: File<ObjectTrack>, actions: File<seq<Action>>)
  {
    !pose.Unreadable? && !objects.Unreadable? && !actions.Unreadable?
  }

  function Section<T>(f: File<T>): Option<T>
  {
    if f.Stored? then Some(f.data) else None
  }

  /** Loading the files of an existing directory; a file that does not parse raises. */
  function LoadAll(pose: File<PoseTrack>, objects: File<ObjectTrack>, actions: File<seq<Action>>): (r: Result<Loaded, HttpError>)
    ensures r.Ok? <==> Readable(pose, objects, actions)
    ensures r.Ok? ==>
      (r.value.pose.Some? <==> pose.Stored?) && (r.value.objects.Some? <==> objects.Stored?) &&
      (r.value.actions.Some? <==> actions.Stored?)
    ensures r.Ok? ==>
      (pose.Stored? ==> r.value.pose.value == pose.data) && (objects.Stored? ==> r.value.objects.value == objects.data) &&
      (actions.Stored? ==> r.value.actions.value == actions.data)
    ensures r.Err? ==> r.error == ServerError
  {
    if !Readable(pose, objects, actions) then Err(ServerError)
    else Ok(Loaded(Section(pose), Section(objects), Section(actions)))
  }

  // ---------------------------------------------------------------- CSV

  /** The columns of one keypoint: `<kp>_x`, `<kp>_y`, and `<kp>_z` only for a third coordinate. */
  function CoordColumns(name: string, c: Coord): seq<(string, real)>
  {
    [(name + "_x", c.x), (name + "_y", c.y)] + (if c.z.Some? then [(name + "_z", c.z.value)] else [])
  }

  /** The coordinate columns of a keypoint dict, in keypoint order. */
  function Columns(kps: Keypoints): seq<(string, real)>
  {
    if kps == [] then [] else Columns(kps[..|kps| - 1]) + CoordColumns(kps[|kps| - 1].0, kps[|kps| - 1].1)
  }

  /** The number of keypoints that carry a third coordinate. */
  function ZCount(kps: Keypoints): nat
  {
    if kps == [] then 0 else ZCount(kps[..|kps| - 1]) + (if kps[|kps| - 1].1.z.Some? then 1 else 0)
  }

  /** Two columns per keypoint and one more per third coordinate. */
  lemma {:induction false} ColumnsCount(kps: Keypoints)
    ensures |Columns(kps)| == 2 * |kps| + ZCount(kps)
  {
    if kps != [] {
      ColumnsCount(kps[..|kps| - 1]);
    }
  }

  /** Every column comes from one keypoint of the dict and carries that keypoint's coordinate. */
  lemma {:induction false} ColumnsFromKeypoints(kps: Keypoints)
    ensures forall col :: col in Columns(kps) ==> exists i :: 0 <= i < |kps| && col in CoordColumns(kps[i].0, kps[i].1)
  {
    if kps != [] {
      var init := kps[..|kps| - 1];
      ColumnsFromKeypoints(init);
      forall col | col in Columns(kps) ensures exists i :: 0 <= i < |kps| && col in CoordColumns(kps[i].0, kps[i].1) {
        if col in Columns(init) {
          var i :| 0 <= i < |init| && col in CoordColumns(init[i].0, init[i].1);
          assert kps[i] == init[i];
        } else {
          assert col in CoordColumns(kps[|kps| - 1].0, kps[|kps| - 1].1);
        }
      }
    }
  }

  /** A keypoint's z column is written iff its coordinate list has a third entry. */
  lemma ZColumnIffThird(name: string, c: Coord)
    ensures |CoordColumns(name, c)| == 3 <==> c.z.Some?
    ensures c.z.Some? ==> CoordColumns(name, c)[2] == (name + "_z", c.z.value)
  {
  }

  /** The row dict of one pose frame, filled keypoint by keypoint. */
  method KeypointColumns(kps: Keypoints) returns (columns: seq<(string, real)>)
    ensures columns == Columns(kps)
  {
    columns := [];
    for i := 0 to |kps|
      invariant columns == Columns(kps[..i])
    {
      var (keypoint, coords) := kps[i];
      columns := columns + [(keypoint + "_x", coords.x)];
      columns := columns + [(keypoint + "_y", coords.y)];
      if coords.z.Some? {
        columns := columns + [(keypoint + "_z", coords.z.value)];
      }
      assert kps[..i + 1][..i] == kps[..i];
    }
    assert kps[..|kps|] == kps;
  }

  /** Every pose frame carries its confidence, so `data["confidence"]` does not raise. */
  predicate Confident(track: PoseTrack)
  {
    forall i :: 0 <= i < |track| ==> track[i].1.confidence.Some?
  }

  function PoseRowOf(frame: string, p: Pose): PoseRow
    requires p.confidence.Some?
  {
    PoseRow(frame, Columns(p.keypoints), p.confidence.value)
  }

  /** The CSV pose rows: one row per frame, in stored order. */
  method PoseRows(track: PoseTrack) returns (r: Result<seq<PoseRow>, HttpError>)
    ensures r.Ok? <==> Confident(track)
    ensures r.Err? ==> r.error == ServerError
    ensures r.Ok? ==> (|r.value| == |track| &&
      forall i :: 0 <= i < |track| ==> r.value[i] == PoseRowOf(track[i].0, track[i].1))
  {
    var rows: seq<PoseRow> := [];
    for i := 0 to |track|
      invariant Confident(track[..i])
      invariant |rows| == i && forall j :: 0 <= j < i ==> rows[j] == PoseRowOf(track[j].0, track[j].1)
    {
      var (frameId, data) := track[i];
      var columns := KeypointColumns(data.keypoints);
      if data.confidence.None? {
        return Err(ServerError);
      }
      rows := rows + [PoseRow(frameId, columns, data.confidence.value)];
      assert track[..i + 1][i] == track[i];
    }
    assert track[..|track|] == track;
    return Ok(rows);
  }

  function ObjectRowOf(frame: string, o: Obj): ObjectRow
  {
    ObjectRow(frame, o.name, o.bbox.x1, o.bbox.y1, o.bbox.x2, o.bbox.y2, o.confidence)
  }

  /** The rows of one frame's detections. */
  function FrameObjectRows(frame: string, objs: seq<Obj>): (r: seq<ObjectRow>)
    ensures |r| == |objs| && forall j :: 0 <= j < |objs| ==> r[j] == ObjectRowOf(frame, objs[j])
  {
    if objs == [] then [] else FrameObjectRows(frame, objs[..|objs| - 1]) + [ObjectRowOf(frame, objs[|objs| - 1])]
  }

  /** The CSV object rows: the detections of every frame, frame by frame. */
  function ObjectRowsOf(track: ObjectTrack): seq<ObjectRow>
  {
    if track == [] then [] else ObjectRowsOf(track[..|track| - 1]) + FrameObjectRows(track[|track| - 1].0, track[|track| - 1].1)
  }

  /** `sum(len(objs) for objs in objects_data.values())`. */
  function TotalDetections(track: ObjectTrack): nat
  {
    if track == [] then 0 else TotalDetections(track[..|track| - 1]) + |track[|track| - 1].1|
  }

  /** One object row per detection. */
  lemma {:induction false} ObjectRowsCount(track: ObjectTrack)
    ensures |ObjectRowsOf(track)| == TotalDetections(track)
  {
    if track != [] {
      ObjectRowsCount(track[..|track| - 1]);
    }
  }

  /** Each object row is a stored detection of its frame with `x1..y2` taken from its box. */
  lemma {:induction false} ObjectRowsFromDetections(track: ObjectTrack)
    ensures forall row :: row in ObjectRowsOf(track) ==>
      exists i, j :: 0 <= i < |track| && 0 <= j < |track[i].1| && row == ObjectRowOf(track[i].0, track[i].1[j])
  {
    if track != [] {
      var init := track[..|track| - 1];
      var n := |track| - 1;
      ObjectRowsFromDetections(init);
      forall row | row in ObjectRowsOf(track)
        ensures exists i, j :: 0 <= i < |track| && 0 <= j < |track[i].1| && row == ObjectRowOf(track[i].0, track[i].1[j])
      {
        if row in ObjectRowsOf(init) {
          var i, j :| 0 <= i < |init| && 0 <= j < |init[i].1| && row == ObjectRowOf(init[i].0, init[i].1[j]);
          assert track[i] == init[i];
        } else {
          var rows := FrameObjectRows(track[n].0, track[n].1);
          assert row in rows;
          var j :| 0 <= j < |rows| && rows[j] == row;
          assert row == ObjectRowOf(track[n].0, track[n].1[j]);
        }
      }
    }
  }

  /** The CSV object rows, built by the nested loop over frames and detections. */
  method ObjectRows(track: ObjectTrack) returns (rows: seq<ObjectRow>)
    ensures rows == ObjectRowsOf(track)
  {
    rows := [];
    for i := 0 to |track|
      invariant rows == ObjectRowsOf(track[..i])
    {
      var (frameId, objects) := track[i];
      ghost var before := rows;
      for j := 0 to |objects|
        invariant rows == before + FrameObjectRows(frameId, objects[..j])
      {
        rows := rows + [ObjectRowOf(frameId, objects[j])];
        assert objects[..j + 1][..j] == objects[..j];
      }
      assert objects[..|objects|] == objects;
      assert track[..i + 1][..i] == track[..i];
    }
    assert track[..|track|] == track;
  }

  /** The CSV export goes through: every pose frame, if there is a pose file, has its confidence. */
  predicate CsvExportable(a: Loaded)
  {
    a.pose.Some? ==> Confident(a.pose.value)
  }

  /**
   * What the CSV document holds for the loaded sections: a table for each present section,
   * one pose row per frame and one object row per detection in stored order, and the actions
   * as stored.
   */
  predicate CsvOf(a: Loaded, d: CsvDoc)
  {
    d.pose.Some? == a.pose.Some? && d.objects.Some? == a.objects.Some? && d.actions == a.actions &&
    (a.pose.Some? ==>
      (Confident(a.pose.value) && |d.pose.value| == |a.pose.value| &&
       forall i :: 0 <= i < |a.pose.value| ==> d.pose.value[i] == PoseRowOf(a.pose.value[i].0, a.pose.value[i].1))) &&
    (a.objects.Some? ==> d.objects.value == ObjectRowsOf(a.objects.value))
  }

  /** The combined CSV export: each present section, its rows, and the actions as stored. */
  method ExportCsv(a: Loaded) returns (r: Result<CsvDoc, HttpError>)
    ensures r.Ok? <==> CsvExportable(a)
    ensures r.Err? ==> r.error == ServerError
    ensures r.Ok? ==> CsvOf(a, r.value)
  {
    var pose: Option<seq<PoseRow>> := None;
    if a.pose.Some? {
      var rows := PoseRows(a.pose.value);
      if rows.Err? {
        return Err(rows.error);
      }
      pose := Some(rows.value);
    }
    var objects: Option<seq<ObjectRow>> := None;
    if a.objects.Some? {
      var rows := ObjectRows(a.objects.value);
      objects := Some(rows);
    }
    return Ok(CsvDoc(pose, objects, a.actions));
  }

  // ---------------------------------------------------------------- YAML

  /** Every key yields a number with `int(key.split("_")[1])`. */
  predicate KeysParse<V>(track: Dict.Dict<V>)
  {
    forall i :: 0 <= i < |track| ==> PyFrameNumber(track[i].0).Some?
  }

  function RosPoseOf(key: string, p: Pose): RosPose
    requires PyFrameNumber(key).Some? && p.confidence.Some?
  {
    var n := PyFrameNumber(key).value;
    RosPose(n, Timestamp(n), p.keypoints, p.confidence.value)
  }

  /** The YAML pose entries: one per frame, in stored order; a bad key or a missing confidence raises. */
  method RosPoses(track: PoseTrack) returns (r: Result<seq<RosPose>, HttpError>)
    ensures r.Ok? <==> KeysParse(track) && Confident(track)
    ensures r.Err? ==> r.error == ServerError
    ensures r.Ok? ==> (|r.value| == |track| &&
      forall i :: 0 <= i < |track| ==> r.value[i] == RosPoseOf(track[i].0, track[i].1))
  {
    var poses: seq<RosPose> := [];
    for i := 0 to |track|
      invariant KeysParse(track[..i]) && Confident(track[..i])
      invariant |poses| == i && forall j :: 0 <= j < i ==> poses[j] == RosPoseOf(track[j].0, track[j].1)
    {
      var (frameId, data) := track[i];
      var frameNum := PyFrameNumber(frameId);
      if frameNum.None? || data.confidence.None? {
        return Err(ServerError);
      }
      ReadyStep(track, i);
      poses := poses + [RosPose(frameNum.value, Timestamp(frameNum.value), data.keypoints, data.confidence.value)];
    }
    assert track[..|track| ] == track;
    return Ok(poses);
  }

  lemma ReadyStep(track: PoseTrack, i: nat)
    requires i < |track| && KeysParse(track[..i]) && Confident(track[..i])
    requires PyFrameNumber(track[i].0).Some? && track[i].1.confidence.Some?
    ensures KeysParse(track[..i + 1]) && Confident(track[..i + 1])
  {
    assert forall j :: 0 <= j < i + 1 ==> track[..i + 1][j] == track[j];
  }

  function RosObjectOf(frame: int, o: Obj): RosObject
  {
    RosObject(frame, Timestamp(frame), o.name, o.bbox.x1, o.bbox.y1, o.bbox.x2, o.bbox.y2, o.confidence)
  }

  function FrameRosObjects(frame: int, objs: seq<Obj>): (r: seq<RosObject>)
    ensures |r| == |objs| && forall j :: 0 <= j < |objs| ==> r[j] == RosObjectOf(frame, objs[j])
  {
    if objs == [] then [] else FrameRosObjects(frame, objs[..|objs| - 1]) + [RosObjectOf(frame, objs[|objs| - 1])]
  }

  /** The YAML object entries: every detection, frame by frame, under its frame's number. */
  function RosObjectsOf(track: ObjectTrack): seq<RosObject>
    requires KeysParse(track)
  {
    if track == [] then []
    else
      var last := track[|track| - 1];
      RosObjectsOf(track[..|track| - 1]) + FrameRosObjects(PyFrameNumber(last.0).value, last.1)
  }

  /** One YAML object entry per detection. */
  lemma {:induction false} RosObjectsCount(track: ObjectTrack)
    requires KeysParse(track)
    ensures |RosObjectsOf(track)| == TotalDetections(track)
  {
    if track != [] {
      RosObjectsCount(track[..|track| - 1]);
    }
  }

  /** The inner loop of the YAML object export: one entry per detection of a frame. */
  method FrameEntries(frame: int, objs: seq<Obj>) returns (entries: seq<RosObject>)
    ensures entries == FrameRosObjects(frame, objs)
  {
    entries := [];
    for j := 0 to |objs|
      invariant entries == FrameRosObjects(frame, objs[..j])
    {
      entries := entries + [RosObjectOf(frame, objs[j])];
      assert objs[..j + 1][..j] == objs[..j];
    }
    assert objs[..|objs|] == objs;
  }

  lemma RosObjectsStep(track: ObjectTrack, i: nat)
    requires i < |track| && KeysParse(track[..i]) && PyFrameNumber(track[i].0).Some?
    ensures KeysParse(track[..i + 1])
    ensures RosObjectsOf(track[..i + 1]) ==
      RosObjectsOf(track[..i]) + FrameRosObjects(PyFrameNumber(track[i].0).value, track[i].1)
  {
    assert track[..i + 1][..i] == track[..i];
    assert forall j :: 0 <= j < i + 1 ==> track[..i + 1][j] == track[j];
  }

  /**
   * The YAML object entries, built by the nested loop; the frame number is parsed before the
   * frame's detections are visited, so a bad key raises even for an empty list.
   */
  method RosObjects(track: ObjectTrack) returns (r: Result<seq<RosObject>, HttpError>)
    ensures r.Ok? <==> KeysParse(track)
    ensures r.Err? ==> r.error == ServerError
    ensures r.Ok? ==> r.value == RosObjectsOf(track)
  {
    var objects: seq<RosObject> := [];
    for i := 0 to |track|
      invariant KeysParse(track[..i]) && objects == RosObjectsOf(track[..i])
    {
      var (frameId, objs) := track[i];
      var frameNum := PyFrameNumber(frameId);
      if frameNum.None? {
        return Err(ServerError);
      }
      var entries := FrameEntries(frameNum.value, objs);
      RosObjectsStep(track, i);
      objects := objects + entries;
    }
    assert track[..|track|] == track;
    return Ok(objects);
  }

  function RosActionOf(a: Action): RosAction
  {
    RosAction(a.name, Timestamp(a.startFrame), Timestamp(a.endFrame), a.startFrame, a.endFrame, a.confidence)
  }

  /** The YAML action entries: one per action, in order, with both frames copied unchanged. */
  method RosActions(actions: seq<Action>) returns (entries: seq<RosAction>)
    ensures |entries| == |actions|
    ensures forall i :: 0 <= i < |actions| ==> entries[i] == RosActionOf(actions[i])
  {
    entries := [];
    for i := 0 to |actions|
      invariant |entries| == i && forall j :: 0 <= j < i ==> entries[j] == RosActionOf(actions[j])
    {
      var action := actions[i];
      entries := entries + [RosAction(action.name, Timestamp(action.startFrame), Timestamp(action.endFrame),
                                      action.startFrame, action.endFrame, action.confidence)];
    }
  }

  /** Whether the YAML export of the loaded sections goes through. */
  predicate YamlExportable(a: Loaded)
  {
    (a.pose.Some? ==> KeysParse(a.pose.value) && Confident(a.pose.value)) &&
    (a.objects.Some? ==> KeysParse(a.objects.value))
  }

  /**
   * What the ROS-style document holds for the loaded sections: the fixed header naming the
   * video, then one pose entry per frame, one object entry per detection and one action entry
   * per action, each in stored order; an absent section gives an empty list.
   */
  predicate YamlOf(a: Loaded, videoId: string, d: RosDoc)
  {
    d.header == RosHeader(1, 0, 0, videoId, "1.0") &&
    (a.pose.None? ==> d.poses == []) &&
    (a.pose.Some? ==>
      (KeysParse(a.pose.value) && Confident(a.pose.value) && |d.poses| == |a.pose.value| &&
       forall i :: 0 <= i < |a.pose.value| ==> d.poses[i] == RosPoseOf(a.pose.value[i].0, a.pose.value[i].1))) &&
    (a.objects.None? ==> d.objects == []) &&
    (a.objects.Some? ==> KeysParse(a.objects.value) && d.objects == RosObjectsOf(a.objects.value)) &&
    (a.actions.None? ==> d.actions == []) &&
    (a.actions.Some? ==>
      (|d.actions| == |a.actions.value| &&
       forall i :: 0 <= i < |a.actions.value| ==> d.actions[i] == RosActionOf(a.actions.value[i])))
  }

  /** The ROS-style document: the fixed header, then the poses, objects and actions. */
  method ExportYaml(a: Loaded, videoId: string) returns (r: Result<RosDoc, HttpError>)
    ensures r.Ok? <==> YamlExportable(a)
    ensures r.Err? ==> r.error == ServerError
    ensures r.Ok? ==> YamlOf(a, videoId, r.value)
  {
    var doc := RosDoc(RosHeader(1, 0, 0, videoId, "1.0"), [], [], []);
    if a.pose.Some? {
      var poses := RosPoses(a.pose.value);
      if poses.Err? {
        return Err(poses.error);
      }
      doc := doc.(poses := poses.value);
    }
    if a.objects.Some? {
      var objects := RosObjects(a.objects.value);
      if objects.Err? {
        return Err(objects.error);
      }
      doc := doc.(objects := objects.value);
    }
    if a.actions.Some? {
      var actions := RosActions(a.actions.value);
      doc := doc.(actions := actions);
    }
    return Ok(doc);
  }

  /** For keys the backend builds, the YAML frame numbers are the numbers the keys were built from. */
  lemma RosPoseFrames(track: PoseTrack, frames: seq<int>)
    requires |frames| == |track| && Confident(track)
    requires forall i :: 0 <= i < |track| ==> track[i].0 == PyFrameKey(frames[i])
    ensures KeysParse(track)
    ensures forall i :: 0 <= i < |track| ==> RosPoseOf(track[i].0, track[i].1).frame == frames[i]
  {
    forall i | 0 <= i < |track| ensures PyFrameNumber(track[i].0) == Some(frames[i]) {
      PyFrameNumberOfKey(frames[i]);
    }
  }

  // ---------------------------------------------------------------- dispatch

  /** The sections an export of the video's files loads: one per existing file. */
  function Contents(v: VideoData): Loaded
    reads v
  {
    Loaded(Section(v.poseFile), Section(v.objectsFile), Section(v.actionsFile))
  }

  /**
   * `GET /video/{id}/export?format=`: 404 without the data directory, the stored files loaded,
   * then the format selects the exporter; any other format is a 400.
   */
  method ExportAnnotations(v: VideoData, videoId: string, format: string) returns (r: Result<Download, HttpError>)
    ensures !v.dirExists ==> r == Err(NotFound)
    ensures v.dirExists && !Readable(v.poseFile, v.objectsFile, v.actionsFile) ==> r == Err(ServerError)
    ensures v.dirExists && Readable(v.poseFile, v.objectsFile, v.actionsFile) && format !in Formats ==>
      r == Err(HttpError(400, "Unsupported format: " + format))
    ensures r.Ok? <==>
      (v.dirExists && Readable(v.poseFile, v.objectsFile, v.actionsFile) && format in Formats &&
       (format == "csv" ==> CsvExportable(Contents(v))) && (format == "yaml" ==> YamlExportable(Contents(v))))
    ensures r.Err? && v.dirExists && Readable(v.poseFile, v.objectsFile, v.actionsFile) && format in Formats ==>
      r == Err(ServerError)
    ensures r.Ok? ==> (r.value.filename == Filename(videoId, format) && r.value.mediaType == MediaType(format))
    ensures r.Ok? && format == "json" ==> r.value.body == JsonBody(Contents(v))
    ensures r.Ok? && format == "csv" ==> r.value.body.CsvBody? && CsvOf(Contents(v), r.value.body.csv)
    ensures r.Ok? && format == "yaml" ==> r.value.body.YamlBody? && YamlOf(Contents(v), videoId, r.value.body.yaml)
  {
    if !v.dirExists {
      return Err(NotFound);
    }
    var loaded := LoadAll(v.poseFile, v.objectsFile, v.actionsFile);
    if loaded.Err? {
      return Err(loaded.error);
    }
    var annotations := loaded.value;
    if format == "json" {
      return Ok(Download(Filename(videoId, "json"), "application/json", JsonBody(annotations)));
    } else if format == "csv" {
      var csv := ExportCsv(annotations);
      if csv.Err? {
        return Err(csv.error);
      }
      return Ok(Download(Filename(videoId, "csv"), "text/csv", CsvBody(csv.value)));
    } else if format == "yaml" {
      var yaml := ExportYaml(annotations, videoId);
      if yaml.Err? {
        return Err(yaml.error);
      }
      return Ok(Download(Filename(videoId, "yaml"), "text/yaml", YamlBody(yaml.value)));
    } else {
      return Err(HttpError(400, "Unsupported format: " + format));
    }
  }

  // ---------------------------------------------------------------- summary

  datatype PoseSummary = PoseSummary(frameCount: nat, keypointCount: nat)
  datatype ObjectSummary = ObjectSummary(frameCount: nat, totalDetections: nat)
  datatype ActionSummary = ActionSummary(actionCount: nat, actionTypes: set<string>)

  datatype Summary = Summary(videoId: string, availableFormats: seq<string>,
                             pose: Option<PoseSummary>, objects: Option<ObjectSummary>, actions: Option<ActionSummary>)

  /** The distinct labels of the actions. */
  function Labels(actions: seq<Action>): (r: set<string>)
    ensures forall l :: l in r <==> exists i :: 0 <= i < |actions| && actions[i].name == l
  {
    set i | 0 <= i < |actions| :: actions[i].name
  }

  /** No more distinct labels than actions, and at least one when there is an action. */
  lemma {:induction false} LabelsBound(actions: seq<Action>)
    ensures |Labels(actions)| <= |actions|
    ensures |actions| > 0 ==> |Labels(actions)| > 0
  {
    if actions != [] {
      var init := actions[..|actions| - 1];
      LabelsBound(init);
      assert Labels(actions) == Labels(init) + {actions[|actions| - 1].name} by {
        forall l ensures l in Labels(actions) <==> l in Labels(init) + {actions[|actions| - 1].name} {
          if l in Labels(actions) {
            var i :| 0 <= i < |actions| && actions[i].name == l;
            if i < |actions| - 1 {
              assert init[i].name == l;
            }
          }
          if l in Labels(init) {
            var i :| 0 <= i < |init| && init[i].name == l;
            assert actions[i].name == l;
          }
        }
      }
      assert actions[|actions| - 1].name in Labels(actions);
    }
  }

  /**
   * `GET /video/{id}/export/summary`: 404 without the data directory; otherwise one entry per
   * existing file, filled in the order pose, objects, actions.
   */
  method ExportSummary(v: VideoData, videoId: string) returns (r: Result<Summary, HttpError>)
    ensures !v.dirExists ==> r == Err(NotFound)
    ensures v.dirExists ==> (r.Ok? <==> Readable(v.poseFile, v.objectsFile, v.actionsFile))
    ensures r.Err? && v.dirExists ==> r.error == ServerError
    ensures r.Ok? ==> r.value.videoId == videoId && r.value.availableFormats == Formats
    ensures r.Ok? ==> ((r.value.pose.Some? <==> v.poseFile.Stored?) && (r.value.objects.Some? <==> v.objectsFile.Stored?) &&
      (r.value.actions.Some? <==> v.actionsFile.Stored?))
    ensures r.Ok? && v.poseFile.Stored? ==> var d := v.poseFile.data;
      r.value.pose.value.frameCount == |d| &&
      r.value.pose.value.keypointCount == (if d == [] then 0 else |d[0].1.keypoints|)
    ensures r.Ok? && v.objectsFile.Stored? ==>
      r.value.objects.value == ObjectSummary(|v.objectsFile.data|, TotalDetections(v.objectsFile.data))
    ensures r.Ok? && v.actionsFile.Stored? ==>
      r.value.actions.value == ActionSummary(|v.actionsFile.data|, Labels(v.actionsFile.data))
  {
    if !v.dirExists {
      return Err(NotFound);
    }
    var summary := Summary(videoId, ["json", "csv", "yaml"], None, None, None);
    if v.poseFile.Unreadable? {
      return Err(ServerError);
    } else if v.poseFile.Stored? {
      var poseData := v.poseFile.data;
      var keypointCount := if |poseData| > 0 then |poseData[0].1.keypoints| else 0;
      summary := summary.(pose := Some(PoseSummary(|poseData|, keypointCount)));
    }
    if v.objectsFile.Unreadable? {
      return Err(ServerError);
    } else if v.objectsFile.Stored? {
      var objectsData := v.objectsFile.data;
      var totalObjects := SumLengths(objectsData);
      summary := summary.(objects := Some(ObjectSummary(|objectsData|, totalObjects)));
    }
    if v.actionsFile.Unreadable? {
      return Err(ServerError);
    } else if v.actionsFile.Stored? {
      var actionsData := v.actionsFile.data;
      summary := summary.(actions := Some(ActionSummary(|actionsData|, Labels(actionsData))));
    }
    return Ok(summary);
  }

  /** The generator sum over the frames' list lengths. */
  method SumLengths(track: ObjectTrack) returns (total: nat)
    ensures total == TotalDetections(track)
  {
    total := 0;
    for i := 0 to |track|
      invariant total == TotalDetections(track[..i])
    {
      total := total + |track[i].1|;
      assert track[..i + 1][..i] == track[..i];
    }
    assert track[..|track|] == track;
  }

  /** The detections of two runs of frames add up. */
  lemma {:induction false} TotalDetectionsAppend(s: ObjectTrack, t: ObjectTrack)
    ensures TotalDetections(s + t) == TotalDetections(s) + TotalDetections(t)
    decreases |t|
  {
    if t != [] {
      assert (s + t)[..|s + t| - 1] == s + t[..|t| - 1];
      TotalDetectionsAppend(s, t[..|t| - 1]);
    } else {
      assert s + t == s;
    }
  }
}
