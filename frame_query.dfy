// Read routes over a video's stored annotations: the three whole-track getters and the
// per-frame query that gathers the pose, the detections and the active actions of one frame.
module FrameQuery {
  import opened Wrappers
  import Dict
  import opened Annotation
  import opened FrameKeys
  import opened AnnotationStore

  /** Loads a file: a missing file is a 404 with `detail`, an unreadable one a server error. */
  function Load<T>(f: File<T>, detail: string): (r: Result<T, HttpError>)
    ensures f.Absent? ==> r == Err(HttpError(404, detail))
    ensures f.Unreadable? ==> r == Err(ServerError)
    ensures f.Stored? ==> r == Ok(f.data)
  {
    match f
    case Absent => Err(HttpError(404, detail))
    case Unreadable => Err(ServerError)
    case Stored(d) => Ok(d)
  }

  function GetPoseData(v: VideoData): (r: Result<PoseTrack, HttpError>)
    reads v
    ensures r.Ok? <==> v.poseFile.Stored?
    ensures r.Ok? ==> r.value == v.poseFile.data
    ensures v.poseFile.Absent? ==> r == Err(HttpError(404, "Pose data not found"))
  {
    Load(v.poseFile, "Pose data not found")
  }

  function GetObjectsData(v: VideoData): (r: Result<ObjectTrack, HttpError>)
    reads v
    ensures r.Ok? <==> v.objectsFile.Stored?
    ensures r.Ok? ==> r.value == v.objectsFile.data
    ensures v.objectsFile.Absent? ==> r == Err(HttpError(404, "Objects data not found"))
  {
    Load(v.objectsFile, "Objects data not found")
  }

  function GetActionsData(v: VideoData): (r: Result<seq<Action>, HttpError>)
    reads v
    ensures r.Ok? <==> v.actionsFile.Stored?
    ensures r.Ok? ==> r.value == v.actionsFile.data
    ensures v.actionsFile.Absent? ==> r == Err(HttpError(404, "Actions data not found"))
  {
    Load(v.actionsFile, "Actions data not found")
  }

  /** The frame query's result; a key the route does not set is None. */
  datatype FrameData = FrameData(frame: int, pose: Option<Pose>, objects: Option<seq<Obj>>, actions: Option<seq<Action>>)

  /**
   * The annotations of frame `frameNum`, looked up under `frame_NNN`. An unreadable file
   * makes the whole query fail.
   */
  function GetFrameData(v: VideoData, frameNum: int): (r: Result<FrameData, HttpError>)
    reads v
    ensures r.Err? <==> v.poseFile.Unreadable? || v.objectsFile.Unreadable? || v.actionsFile.Unreadable?
    ensures r.Ok? ==> r.value.frame == frameNum
    ensures r.Ok? ==> (r.value.pose.Some? <==> v.poseFile.Stored? && Dict.HasKey(v.poseFile.data, PyFrameKey(frameNum)))
    ensures r.Ok? && r.value.pose.Some? ==> Dict.Get(v.poseFile.data, PyFrameKey(frameNum)) == r.value.pose
    ensures r.Ok? ==> (r.value.objects.Some? <==> v.objectsFile.Stored? && Dict.HasKey(v.objectsFile.data, PyFrameKey(frameNum)))
    ensures r.Ok? && r.value.objects.Some? ==> Dict.Get(v.objectsFile.data, PyFrameKey(frameNum)) == r.value.objects
    ensures r.Ok? ==> (r.value.actions.Some? <==> v.actionsFile.Stored?)
    ensures r.Ok? && r.value.actions.Some? ==> r.value.actions.value == ActionsAt(v.actionsFile.data, frameNum)
    ensures r.Ok? && r.value.actions.Some? ==>
      forall a :: a in r.value.actions.value <==> a in v.actionsFile.data && ActiveAt(a, frameNum)
  {
    var key := PyFrameKey(frameNum);
    if v.poseFile.Unreadable? || v.objectsFile.Unreadable? || v.actionsFile.Unreadable? then Err(ServerError)
    else
      var pose := if v.poseFile.Stored? then Dict.Get(v.poseFile.data, key) else None;
      var objects := if v.objectsFile.Stored? then Dict.Get(v.objectsFile.data, key) else None;
      var actions := if v.actionsFile.Stored? then Some(ActionsAt(v.actionsFile.data, frameNum)) else None;
      Ok(FrameData(frameNum, pose, objects, actions))
  }

  /** What an edit writes is what the frame query reads back. */
  lemma UpdatedPoseIsQueried(d: PoseTrack, frameNum: int, p: Pose)
    ensures Dict.Get(Dict.Put(d, PyFrameKey(frameNum), p), PyFrameKey(frameNum)) == Some(p)
  {
    Dict.GetPut(d, PyFrameKey(frameNum), p, PyFrameKey(frameNum));
  }
}
