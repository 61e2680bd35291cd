// The backend's authoritative annotation store for one video: the data directory and its
// three JSON files, and the edit routes that load a file, change it and write it back.
module AnnotationStore {
  import opened Wrappers
  import Dict
  import opened Annotation

  /** A JSON file of the data directory: missing, holding a document, or not parseable. */
  datatype File<T> = Absent | Stored(data: T) | Unreadable

  /** The body of the bulk save; a missing section is None. */
  datatype AnnotationsUpdate = AnnotationsUpdate(
    pose: Option<PoseTrack>, objects: Option<ObjectTrack>, actions: Option<seq<Action>>)

  /** Request validation: every pose frame of a body must carry its confidence. */
  predicate PosesComplete(t: PoseTrack)
  {
    forall i :: 0 <= i < |t| ==> t[i].1.confidence.Some?
  }

  predicate UpdateValid(u: AnnotationsUpdate)
  {
    u.pose.Some? ==> PosesComplete(u.pose.value)
  }

  /** Python truthiness of an optional section: present and non-empty. */
  predicate Truthy<T>(section: Option<seq<T>>) { section.Some? && |section.value| > 0 }

  /** The sections a bulk save writes, in the order it writes and reports them. */
  function SavedSections(u: AnnotationsUpdate): (r: seq<string>)
    ensures ("pose" in r <==> Truthy(u.pose)) && ("objects" in r <==> Truthy(u.objects))
    ensures "actions" in r <==> Truthy(u.actions)
    ensures forall i, j :: 0 <= i < j < |r| ==> Rank(r[i]) < Rank(r[j])
  {
    (if Truthy(u.pose) then ["pose"] else []) +
    (if Truthy(u.objects) then ["objects"] else []) +
    (if Truthy(u.actions) then ["actions"] else [])
  }

  function Rank(section: string): int
  {
    if section == "pose" then 0 else if section == "objects" then 1 else 2
  }

  const Unprocessable := HttpError(422, "Unprocessable Entity")
  const ServerError := HttpError(500, "Internal Server Error")

  class VideoData {
    var dirExists: bool
    var poseFile: File<PoseTrack>
    var objectsFile: File<ObjectTrack>
    var actionsFile: File<seq<Action>>

    /** A file exists only inside an existing data directory. */
    ghost predicate Valid()
      reads this
    {
      !dirExists ==> poseFile.Absent? && objectsFile.Absent? && actionsFile.Absent?
    }

    constructor (dirExists: bool, pose: File<PoseTrack>, objects: File<ObjectTrack>, actions: File<seq<Action>>)
      requires !dirExists ==> pose.Absent? && objects.Absent? && actions.Absent?
      ensures Valid()
      ensures this.dirExists == dirExists && poseFile == pose && objectsFile == objects && actionsFile == actions
    {
      this.dirExists := dirExists;
      poseFile := pose;
      objectsFile := objects;
      actionsFile := actions;
    }

    /**
     * Bulk save: 404 when the data directory is missing, otherwise each present and non-empty
     * section overwrites its file and the saved sections are reported in order. Pose and object
     * sections are written as plain JSON (see SaveAsWritten for the code as it stands).
     */
    method SaveAnnotations(u: AnnotationsUpdate) returns (r: Result<seq<string>, HttpError>)
      requires Valid()
      modifies this
      ensures Valid() && dirExists == old(dirExists)
      ensures !UpdateValid(u) ==> r == Err(Unprocessable)
      ensures UpdateValid(u) && !dirExists ==> r == Err(HttpError(404, "Video data directory not found"))
      ensures r.Ok? <==> UpdateValid(u) && dirExists
      ensures r.Ok? ==> r.value == SavedSections(u)
      ensures r.Ok? ==>
        poseFile == (if Truthy(u.pose) then Stored(u.pose.value) else old(poseFile)) &&
        objectsFile == (if Truthy(u.objects) then Stored(u.objects.value) else old(objectsFile)) &&
        actionsFile == (if Truthy(u.actions) then Stored(u.actions.value) else old(actionsFile))
      ensures r.Err? ==> poseFile == old(poseFile) && objectsFile == old(objectsFile) && actionsFile == old(actionsFile)
    {
      if !UpdateValid(u) {
        return Err(Unprocessable);
      }
      if !dirExists {
        return Err(HttpError(404, "Video data directory not found"));
      }
      var saved: seq<string> := [];
      if Truthy(u.pose) {
        poseFile := Stored(u.pose.value);
        saved := saved + ["pose"];
      }
      if Truthy(u.objects) {
        objectsFile := Stored(u.objects.value);
        saved := saved + ["objects"];
      }
      if Truthy(u.actions) {
        actionsFile := Stored(u.actions.value);
        saved := saved + ["actions"];
      }
      r := Ok(saved);
    }

    /** Upsert of one pose frame: the frame key gets the new pose, every other frame is kept. */
    method UpdatePoseFrame(frameId: string, pose: Pose) returns (r: Result<string, HttpError>)
      requires Valid()
      modifies this`poseFile
      ensures Valid()
      ensures pose.confidence.None? ==> r == Err(Unprocessable)
      ensures pose.confidence.Some? && old(poseFile).Absent? ==> r == Err(HttpError(404, "Pose data not found"))
      ensures pose.confidence.Some? && old(poseFile).Unreadable? ==> r == Err(ServerError)
      ensures r.Ok? <==> pose.confidence.Some? && old(poseFile).Stored?
      ensures r.Ok? ==>
        poseFile == Stored(Dict.Put(old(poseFile).data, frameId, pose)) &&
        r.value == "Pose updated for frame " + frameId
      ensures r.Err? ==> poseFile == old(poseFile)
    {
      if pose.confidence.None? {
        return Err(Unprocessable);
      }
      match poseFile
      case Absent => r := Err(HttpError(404, "Pose data not found"));
      case Unreadable => r := Err(ServerError);
      case Stored(d) =>
        poseFile := Stored(Dict.Put(d, frameId, pose));
        r := Ok("Pose updated for frame " + frameId);
    }

    /** Replaces the detection list of one frame and keeps every other frame. */
    method UpdateObjectsFrame(frameId: string, objects: seq<Obj>) returns (r: Result<string, HttpError>)
      requires Valid()
      modifies this`objectsFile
      ensures Valid()
      ensures old(objectsFile).Absent? ==> r == Err(HttpError(404, "Objects data not found"))
      ensures old(objectsFile).Unreadable? ==> r == Err(ServerError)
      ensures r.Ok? <==> old(objectsFile).Stored?
      ensures r.Ok? ==>
        objectsFile == Stored(Dict.Put(old(objectsFile).data, frameId, objects)) &&
        r.value == "Objects updated for frame " + frameId
      ensures r.Err? ==> objectsFile == old(objectsFile)
    {
      match objectsFile
      case Absent => r := Err(HttpError(404, "Objects data not found"));
      case Unreadable => r := Err(ServerError);
      case Stored(d) =>
        objectsFile := Stored(Dict.Put(d, frameId, objects));
        r := Ok("Objects updated for frame " + frameId);
    }

    /**
     * Appends an action and re-sorts the list by start frame; a missing file starts from the
     * empty list. Writing into a missing data directory fails with a server error.
     */
    method AddAction(action: Action) returns (r: Result<string, HttpError>)
      requires Valid()
      modifies this`actionsFile
      ensures Valid()
      ensures r.Ok? <==> dirExists && !old(actionsFile).Unreadable?
      ensures r.Ok? ==> r.value == "Action added successfully"
      ensures r.Ok? && old(actionsFile).Absent? ==> actionsFile == Stored([action])
      ensures r.Ok? && old(actionsFile).Stored? ==>
        actionsFile == Stored(SortByStart(old(actionsFile).data + [action]))
      ensures r.Err? ==> r == Err(ServerError) && actionsFile == old(actionsFile)
    {
      var current: seq<Action>;
      match actionsFile {
        case Unreadable => return Err(ServerError);
        case Absent => current := [];
        case Stored(s) => current := s;
      }
      if !dirExists {
        return Err(ServerError);
      }
      assert SortByStart([] + [action]) == [action] by { assert [] + [action] == [action]; }
      actionsFile := Stored(SortByStart(current + [action]));
      r := Ok("Action added successfully");
    }

    /** Removes the action at `index`; an index outside the list is a 404 and changes nothing. */
    method DeleteAction(index: int) returns (r: Result<string, HttpError>)
      requires Valid()
      modifies this`actionsFile
      ensures Valid()
      ensures old(actionsFile).Absent? ==> r == Err(HttpError(404, "Actions data not found"))
      ensures old(actionsFile).Unreadable? ==> r == Err(ServerError)
      ensures old(actionsFile).Stored? && !(0 <= index < |old(actionsFile).data|) ==>
        r == Err(HttpError(404, "Action index out of range"))
      ensures r.Ok? <==> old(actionsFile).Stored? && 0 <= index < |old(actionsFile).data|
      ensures r.Ok? ==>
        actionsFile == Stored(RemoveIndex(old(actionsFile).data, index)) &&
        r.value == "Deleted action: " + old(actionsFile).data[index].name
      ensures r.Err? ==> actionsFile == old(actionsFile)
    {
      match actionsFile
      case Absent => r := Err(HttpError(404, "Actions data not found"));
      case Unreadable => r := Err(ServerError);
      case Stored(s) =>
        if index < 0 || index >= |s| {
          return Err(HttpError(404, "Action index out of range"));
        }
        actionsFile := Stored(RemoveIndex(s, index));
        r := Ok("Deleted action: " + s[index].name);
    }
  }

  /** An object track with at least one detection, that is, one pydantic model to encode. */
  predicate HasDetection(t: ObjectTrack) { exists i :: 0 <= i < |t| && |t[i].1| > 0 }

  /**
   * The bulk save as the route stands: it hands the validated pose and object models to the
   * JSON encoder unconverted, which raises after `open(..., 'w')` has truncated the file. A
   * pose section always holds a model; an object section holds one only when some frame has a
   * detection, and one whose frames are all empty lists is written and reported like actions.
   * Returns the response and the three files afterwards.
   */
  function SaveAsWritten(dirExists: bool, files: (File<PoseTrack>, File<ObjectTrack>, File<seq<Action>>), u: AnnotationsUpdate)
    : (Result<seq<string>, HttpError>, (File<PoseTrack>, File<ObjectTrack>, File<seq<Action>>))
  {
    if !UpdateValid(u) then (Err(Unprocessable), files)
    else if !dirExists then (Err(HttpError(404, "Video data directory not found")), files)
    else if Truthy(u.pose) then (Err(ServerError), (Unreadable, files.1, files.2))
    else if Truthy(u.objects) && HasDetection(u.objects.value) then
      (Err(ServerError), (files.0, Unreadable, files.2))
    else
      var objects := if Truthy(u.objects) then Stored(u.objects.value) else files.1;
      var actions := if Truthy(u.actions) then Stored(u.actions.value) else files.2;
      (Ok(SavedSections(u)), (files.0, objects, actions))
  }

  /**
   * For a valid body and an existing directory, the save as written fails exactly when it has
   * a pose model or an object model to encode; when it does not fail it writes the files and
   * reports the sections the corrected save does. A failure truncates the first file it hits.
   */
  lemma SaveAsWrittenFailsOnModels(files: (File<PoseTrack>, File<ObjectTrack>, File<seq<Action>>), u: AnnotationsUpdate)
    requires UpdateValid(u)
    ensures var (r, after) := SaveAsWritten(true, files, u);
      (r.Err? <==> Truthy(u.pose) || (Truthy(u.objects) && HasDetection(u.objects.value))) &&
      (r.Err? ==>
        (r == Err(ServerError) && (after.0.Unreadable? || after.1.Unreadable?) && after.2 == files.2)) &&
      (r.Ok? ==>
        (r.value == SavedSections(u) && after.0 == files.0 &&
         after.1 == (if Truthy(u.objects) then Stored(u.objects.value) else files.1) &&
         after.2 == (if Truthy(u.actions) then Stored(u.actions.value) else files.2)))
  {
  }

  /** An object section whose only frame has no detections is written and reported as saved. */
  lemma SaveAsWrittenKeepsEmptyFrames()
    ensures var u := AnnotationsUpdate(None, Some([("frame_000", [])]), None);
      SaveAsWritten(true, (Absent, Absent, Absent), u) ==
        (Ok(["objects"]), (Absent, Stored([("frame_000", [])]), Absent))
  {
    var u := AnnotationsUpdate(None, Some([("frame_000", [])]), None);
    assert UpdateValid(u) && Truthy(u.objects) && !Truthy(u.pose) && !Truthy(u.actions);
    assert !HasDetection(u.objects.value);
    assert SavedSections(u) == ["objects"];
    assert SaveAsWritten(true, (Absent, Absent, Absent), u).0 == Ok(["objects"]);
  }

  /**
   * A save whose body holds one pose frame fails with a server error and leaves pose.json
   * unreadable, where the saved sections should have been reported.
   */
  lemma SaveAsWrittenLosesPose()
    ensures var p := Pose([("nose", Coord(1.0, 2.0, None))], Some(0.9));
      var u := AnnotationsUpdate(Some([("frame_000", p)]), None, None);
      var files := (Stored([("frame_000", p)]), Absent, Absent);
      SaveAsWritten(true, files, u) == (Err(ServerError), (Unreadable, Absent, Absent)) &&
      SavedSections(u) == ["pose"]
  {
    var p := Pose([("nose", Coord(1.0, 2.0, None))], Some(0.9));
    var u := AnnotationsUpdate(Some([("frame_000", p)]), None, None);
    assert PosesComplete(u.pose.value);
  }
}
