// The annotation editor component. Its working copy is a shallow copy of the annotations
// object: the pose and object tracks are shared JavaScript objects, and an edit writes into
// them in place. The tracks are therefore objects here, and the copy holds references to them.
module AnnotationEditor {
  import opened Wrappers
  import Dict
  import opened Annotation
  import opened FrameKeys

  /** A JavaScript object used as a dictionary from frame keys to values. */
  class Track<V> {
    var entries: Dict.Dict<V>

    constructor (entries: Dict.Dict<V>)
      ensures this.entries == entries
    {
      this.entries := entries;
    }
  }

  /** The annotations object: two shared tracks and an action list. */
  class AnnotationSet {
    var pose: Track<Pose>
    var objects: Track<seq<Obj>>
    var actions: seq<Action>

    constructor (pose: Track<Pose>, objects: Track<seq<Obj>>, actions: seq<Action>)
      ensures this.pose == pose && this.objects == objects && this.actions == actions
    {
      this.pose := pose;
      this.objects := objects;
      this.actions := actions;
    }
  }

  /** The `type` and `data` of one edit; any other type is `OtherEdit`. */
  datatype Edit =
    | PoseEdit(frameId: string, pose: Pose)
    | ObjectsEdit(frameId: string, objects: seq<Obj>)
    | ActionsEdit(actions: seq<Action>)
    | OtherEdit(kind: string)

  /** What the editor shows for its current frame. */
  datatype EditorFrame = EditorFrame(pose: Option<Pose>, objects: Option<seq<Obj>>, actions: seq<Action>)

  class Editor {
    var currentFrame: int
    var selectedTool: string
    var isPlaying: bool
    var edited: AnnotationSet

    /** The editor starts at frame 1 with the pose tool, editing the annotations it was given. */
    constructor (annotations: AnnotationSet)
      ensures currentFrame == 1 && selectedTool == "pose" && !isPlaying && edited == annotations
    {
      currentFrame := 1;
      selectedTool := "pose";
      isPlaying := false;
      edited := annotations;
    }

    /** The effect that runs when the `annotations` prop changes. */
    method AnnotationsChanged(annotations: AnnotationSet)
      modifies this`edited
      ensures edited == annotations
    {
      edited := annotations;
    }

    method FrameChange(frame: int)
      modifies this`currentFrame
      ensures currentFrame == frame
    {
      currentFrame := frame;
    }

    /**
     * `handleAnnotationEdit`: a fresh shallow copy that shares both tracks; a pose or objects
     * edit writes one key of the shared track, an actions edit replaces the copy's list, and any
     * other type changes no content.
     */
    method HandleAnnotationEdit(e: Edit)
      modifies this`edited, edited.pose, edited.objects
      ensures fresh(edited)
      ensures edited.pose == old(edited.pose) && edited.objects == old(edited.objects)
      ensures e.PoseEdit? ==> edited.pose.entries == Dict.Put(old(edited.pose.entries), e.frameId, e.pose)
      ensures !e.PoseEdit? ==> edited.pose.entries == old(edited.pose.entries)
      ensures e.ObjectsEdit? ==> edited.objects.entries == Dict.Put(old(edited.objects.entries), e.frameId, e.objects)
      ensures !e.ObjectsEdit? ==> edited.objects.entries == old(edited.objects.entries)
      ensures edited.actions == if e.ActionsEdit? then e.actions else old(edited.actions)
    {
      var newAnnotations := new AnnotationSet(edited.pose, edited.objects, edited.actions);
      match e {
        case PoseEdit(frameId, pose) =>
          newAnnotations.pose.entries := Dict.Put(newAnnotations.pose.entries, frameId, pose);
        case ObjectsEdit(frameId, objects) =>
          newAnnotations.objects.entries := Dict.Put(newAnnotations.objects.entries, frameId, objects);
        case ActionsEdit(actions) =>
          newAnnotations.actions := actions;
        case OtherEdit(_) =>
      }
      edited := newAnnotations;
    }

    /** `handleSave`: the callback receives the working copy itself. */
    method HandleSave() returns (saved: AnnotationSet)
      ensures saved == edited
    {
      saved := edited;
    }

    /** `getCurrentFrameData`: the frame's entries under the padded key, and the whole action list. */
    function CurrentFrameData(): (v: EditorFrame)
      reads this, edited, edited.pose, edited.objects
      ensures v.pose == Dict.Get(edited.pose.entries, JsFrameKey(currentFrame))
      ensures v.objects == Dict.Get(edited.objects.entries, JsFrameKey(currentFrame))
      ensures v.actions == edited.actions
    {
      var frameId := JsFrameKey(currentFrame);
      EditorFrame(Dict.Get(edited.pose.entries, frameId), Dict.Get(edited.objects.entries, frameId), edited.actions)
    }
  }

  /**
   * The copy is shallow: a pose edit made through the editor is seen through every annotations
   * object that shares the track, the parent's prop included, and the edited frame then reads
   * back the new pose while every other frame reads as before.
   */
  method SharedTrackEdit(parent: AnnotationSet, frameId: string, pose: Pose, other: string)
    modifies parent.pose, parent.objects
    ensures parent.pose.entries == Dict.Put(old(parent.pose.entries), frameId, pose)
    ensures parent.objects.entries == old(parent.objects.entries)
    ensures Dict.Get(parent.pose.entries, frameId) == Some(pose)
    ensures other != frameId ==> Dict.Get(parent.pose.entries, other) == Dict.Get(old(parent.pose.entries), other)
  {
    var editor := new Editor(parent);
    editor.HandleAnnotationEdit(PoseEdit(frameId, pose));
    Dict.GetPut(old(parent.pose.entries), frameId, pose, other);
  }
}
