// The annotation page's session state: the local copy of the annotations, the unsaved-changes
// and saving flags, and the current frame. Each edit is sent to the backend first; the local
// copy changes only when that call succeeds, which the model receives as the `ok` parameter.
module AnnotatePage {
  import opened Wrappers
  import Dict
  import opened Annotation
  import opened FrameKeys

  /** The smallest frame count the page assumes. */
  const MinFrames := 100

  /** `Math.max(#pose keys, #object keys, 100)`. */
  function TotalFrames(pose: PoseTrack, objects: ObjectTrack): (n: int)
    ensures n >= MinFrames && n >= |pose| && n >= |objects|
    ensures n == MinFrames || n == |pose| || n == |objects|
  {
    if |pose| >= |objects| && |pose| >= MinFrames then |pose|
    else if |objects| >= MinFrames then |objects|
    else MinFrames
  }

  /** `{...pose[frameId], keypoints}`: the new keypoints with the frame's confidence, if it had one. */
  function PatchedPose(current: Option<Pose>, keypoints: Keypoints): (p: Pose)
    ensures p.keypoints == keypoints
    ensures current.Some? ==> p.confidence == current.value.confidence
    ensures current.None? ==> p.confidence.None?
  {
    Pose(keypoints, if current.Some? then current.value.confidence else None)
  }

  /** What the page shows for one frame. */
  datatype FrameView = FrameView(pose: Option<Pose>, objects: seq<Obj>, actions: seq<Action>)

  /** The frame's data under the key `frame_` + three-digit padding, and the actions active at it. */
  function FrameViewAt(pose: PoseTrack, objects: ObjectTrack, actions: seq<Action>, frame: int): (v: FrameView)
    ensures v.pose == Dict.Get(pose, JsFrameKey(frame))
    ensures Dict.HasKey(objects, JsFrameKey(frame)) ==> v.objects == Dict.Get(objects, JsFrameKey(frame)).value
    ensures !Dict.HasKey(objects, JsFrameKey(frame)) ==> v.objects == []
    ensures forall a :: a in v.actions <==> a in actions && ActiveAt(a, frame)
  {
    var key := JsFrameKey(frame);
    var frameObjects := Dict.Get(objects, key);
    FrameView(Dict.Get(pose, key), if frameObjects.Some? then frameObjects.value else [], ActionsAt(actions, frame))
  }

  /** A successful keypoint edit of a frame is what the page then shows for it, confidence kept. */
  lemma PoseEditShown(pose: PoseTrack, objects: ObjectTrack, actions: seq<Action>, frame: int, keypoints: Keypoints)
    ensures var key := JsFrameKey(frame);
      var edited := Dict.Put(pose, key, PatchedPose(Dict.Get(pose, key), keypoints));
      var v := FrameViewAt(edited, objects, actions, frame);
      v.pose.Some? && v.pose.value.keypoints == keypoints &&
      (Dict.HasKey(pose, key) ==> v.pose.value.confidence == Dict.Get(pose, key).value.confidence)
  {
    var key := JsFrameKey(frame);
    Dict.GetPut(pose, key, PatchedPose(Dict.Get(pose, key), keypoints), key);
  }

  /** A keypoint edit of one frame leaves every other frame as it was. */
  lemma PoseEditLocal(pose: PoseTrack, key: string, keypoints: Keypoints, other: string)
    requires other != key
    ensures Dict.Get(Dict.Put(pose, key, PatchedPose(Dict.Get(pose, key), keypoints)), other) == Dict.Get(pose, other)
  {
    Dict.GetPut(pose, key, PatchedPose(Dict.Get(pose, key), keypoints), other);
  }

  class AnnotateSession {
    var loading: bool
    var currentFrame: int
    var totalFrames: int
    var selectedTool: string
    var pose: PoseTrack
    var objects: ObjectTrack
    var actions: seq<Action>
    var hasChanges: bool
    var saving: bool

    predicate Valid()
      reads this
    {
      totalFrames >= MinFrames
    }

    constructor ()
      ensures Valid() && loading && currentFrame == 1 && totalFrames == MinFrames && selectedTool == "pose"
      ensures pose == [] && objects == [] && actions == [] && !hasChanges && !saving
    {
      loading := true;
      currentFrame := 1;
      totalFrames := MinFrames;
      selectedTool := "pose";
      pose := [];
      objects := [];
      actions := [];
      hasChanges := false;
      saving := false;
    }

    /**
     * `loadAnnotations`: the three tracks, a missing one as empty, and the frame count; when
     * any request fails only the loading flag changes.
     */
    method Load(poseData: Option<PoseTrack>, objectsData: Option<ObjectTrack>, actionsData: Option<seq<Action>>, ok: bool)
      requires Valid()
      modifies this
      ensures Valid() && !loading
      ensures currentFrame == old(currentFrame) && selectedTool == old(selectedTool)
      ensures hasChanges == old(hasChanges) && saving == old(saving)
      ensures ok ==>
        pose == (if poseData.Some? then poseData.value else []) &&
        objects == (if objectsData.Some? then objectsData.value else []) &&
        actions == (if actionsData.Some? then actionsData.value else []) &&
        totalFrames == TotalFrames(pose, objects)
      ensures !ok ==> (pose == old(pose) && objects == old(objects) && actions == old(actions) &&
        totalFrames == old(totalFrames))
    {
      loading := true;
      if !ok {
        loading := false;
        return;
      }
      pose := if poseData.Some? then poseData.value else [];
      objects := if objectsData.Some? then objectsData.value else [];
      actions := if actionsData.Some? then actionsData.value else [];
      totalFrames := TotalFrames(pose, objects);
      loading := false;
    }

    /** `handlePoseUpdate`: the patched pose is sent; on success it replaces that frame only. */
    method PoseUpdate(frameId: string, keypoints: Keypoints, ok: bool) returns (sent: Pose)
      requires Valid()
      modifies this`pose, this`hasChanges
      ensures Valid()
      ensures sent == PatchedPose(Dict.Get(old(pose), frameId), keypoints)
      ensures ok ==> pose == Dict.Put(old(pose), frameId, sent) && hasChanges
      ensures !ok ==> pose == old(pose) && hasChanges == old(hasChanges)
    {
      sent := PatchedPose(Dict.Get(pose, frameId), keypoints);
      if ok {
        pose := Dict.Put(pose, frameId, sent);
        hasChanges := true;
      }
    }

    /** `handleObjectsUpdate`: on success the frame's detection list is replaced. */
    method ObjectsUpdate(frameId: string, frameObjects: seq<Obj>, ok: bool)
      requires Valid()
      modifies this`objects, this`hasChanges
      ensures Valid()
      ensures ok ==> objects == Dict.Put(old(objects), frameId, frameObjects) && hasChanges
      ensures !ok ==> objects == old(objects) && hasChanges == old(hasChanges)
    {
      if ok {
        objects := Dict.Put(objects, frameId, frameObjects);
        hasChanges := true;
      }
    }

    /** `handleActionAdd`: on success the action is appended and the copy sorted by start frame. */
    method ActionAdd(action: Action, ok: bool)
      requires Valid()
      modifies this`actions, this`hasChanges
      ensures Valid()
      ensures ok ==> actions == SortByStart(old(actions) + [action]) && hasChanges
      ensures ok ==> SortedByStart(actions) && multiset(actions) == multiset(old(actions)) + multiset{action}
      ensures !ok ==> actions == old(actions) && hasChanges == old(hasChanges)
    {
      if ok {
        var updatedActions := SortByStart(actions + [action]);
        SortByStartProperties(actions + [action]);
        actions := updatedActions;
        hasChanges := true;
      }
    }

    /** `handleActionDelete`: on success every entry except the one at the index is kept. */
    method ActionDelete(actionIndex: int, ok: bool)
      requires Valid()
      modifies this`actions, this`hasChanges
      ensures Valid()
      ensures ok ==> actions == RemoveIndex(old(actions), actionIndex) && hasChanges
      ensures !ok ==> actions == old(actions) && hasChanges == old(hasChanges)
    {
      if ok {
        actions := RemoveIndex(actions, actionIndex);
        hasChanges := true;
      }
    }

    /** The Save All button is enabled only with unsaved changes and no save in flight. */
    predicate SaveEnabled()
      reads this
    {
      hasChanges && !saving
    }

    /** The first half of `handleSaveAll`: the flag is raised and the whole local copy is sent. */
    method BeginSave() returns (sent: Document)
      requires Valid()
      modifies this`saving
      ensures Valid() && saving
      ensures sent == Document(pose, objects, actions)
    {
      saving := true;
      sent := Document(pose, objects, actions);
    }

    /** The second half: a successful save clears the unsaved-changes flag; the flag drops either way. */
    method EndSave(ok: bool)
      requires Valid()
      modifies this`saving, this`hasChanges
      ensures Valid() && !saving
      ensures hasChanges == (old(hasChanges) && !ok)
    {
      if ok {
        hasChanges := false;
      }
      saving := false;
    }

    /** `handleSaveAll` as a whole. */
    method SaveAll(ok: bool) returns (sent: Document)
      requires Valid()
      modifies this`saving, this`hasChanges
      ensures Valid() && !saving
      ensures sent == Document(pose, objects, actions)
      ensures hasChanges == (old(hasChanges) && !ok)
    {
      sent := BeginSave();
      EndSave(ok);
    }

    /** Prev: one frame back, never below frame 1. */
    method PrevFrame()
      requires Valid()
      modifies this`currentFrame
      ensures Valid()
      ensures currentFrame >= 1
      ensures old(currentFrame) > 1 ==> currentFrame == old(currentFrame) - 1
      ensures old(currentFrame) <= 1 ==> currentFrame == 1
      ensures 1 <= old(currentFrame) <= totalFrames ==> 1 <= currentFrame <= totalFrames
    {
      currentFrame := if currentFrame - 1 > 1 then currentFrame - 1 else 1;
    }

    /** Next: one frame forward, never past the frame count. */
    method NextFrame()
      requires Valid()
      modifies this`currentFrame
      ensures Valid()
      ensures currentFrame <= totalFrames
      ensures old(currentFrame) < totalFrames ==> currentFrame == old(currentFrame) + 1
      ensures old(currentFrame) >= totalFrames ==> currentFrame == totalFrames
      ensures 1 <= old(currentFrame) <= totalFrames ==> 1 <= currentFrame <= totalFrames
    {
      currentFrame := if currentFrame + 1 < totalFrames then currentFrame + 1 else totalFrames;
    }

    /** A frame reported by the viewer, the timeline or the slider. */
    method SetFrame(frame: int)
      requires Valid()
      modifies this`currentFrame
      ensures Valid() && currentFrame == frame
    {
      currentFrame := frame;
    }
  }
}
