// The offline action recognizer: per-frame rules (reach, pick, place, walk, idle) applied in a
// fixed priority order, and the grouping of the per-frame labels into action segments.
module ActionRules {
  import opened Wrappers
  import Dict
  import opened Annotation
  import opened FrameKeys
  import opened Segments

  function Abs(x: real): real { if x < 0.0 then -x else x }

  /** On one side, wrist and shoulder are both present and more than 100 apart vertically. */
  predicate ArmExtended(kps: Keypoints, wrist: string, shoulder: string)
  {
    Dict.HasKey(kps, wrist) && Dict.HasKey(kps, shoulder) &&
    Abs(Dict.Get(kps, wrist).value.y - Dict.Get(kps, shoulder).value.y) > 100.0
  }

  predicate DetectReach(kps: Keypoints)
  {
    ArmExtended(kps, "left_wrist", "left_shoulder") || ArmExtended(kps, "right_wrist", "right_shoulder")
  }

  predicate Graspable(name: string) { name in ["cup", "bottle", "cell phone", "book"] }

  predicate Surface(name: string) { name in ["table", "desk", "counter"] }

  /** The wrist is present and closer than 50 to the box centre (squared distance below 2500). */
  predicate WristNearCentre(kps: Keypoints, wrist: string, b: Box)
  {
    Dict.HasKey(kps, wrist) &&
    var w := Dict.Get(kps, wrist).value;
    var dx := w.x - (b.x1 + b.x2) / 2.0;
    var dy := w.y - (b.y1 + b.y2) / 2.0;
    dx * dx + dy * dy < 2500.0
  }

  /** The wrist is present and strictly between the box's top and bottom edges. */
  predicate WristAtLevel(kps: Keypoints, wrist: string, b: Box)
  {
    Dict.HasKey(kps, wrist) && b.y1 < Dict.Get(kps, wrist).value.y < b.y2
  }

  predicate PickFrom(kps: Keypoints, o: Obj)
  {
    Graspable(o.name) && (WristNearCentre(kps, "left_wrist", o.bbox) || WristNearCentre(kps, "right_wrist", o.bbox))
  }

  predicate PlaceOn(kps: Keypoints, o: Obj)
  {
    Surface(o.name) && (WristAtLevel(kps, "left_wrist", o.bbox) || WristAtLevel(kps, "right_wrist", o.bbox))
  }

  /** The scan over the detections that stops at the first graspable object near a wrist. */
  predicate DetectPick(kps: Keypoints, objects: seq<Obj>)
  {
    objects != [] && (PickFrom(kps, objects[0]) || DetectPick(kps, objects[1..]))
  }

  predicate DetectPlace(kps: Keypoints, objects: seq<Obj>)
  {
    objects != [] && (PlaceOn(kps, objects[0]) || DetectPlace(kps, objects[1..]))
  }

  lemma {:induction false} DetectPickIff(kps: Keypoints, objects: seq<Obj>)
    ensures DetectPick(kps, objects) <==> exists i :: 0 <= i < |objects| && PickFrom(kps, objects[i])
  {
    if objects != [] {
      DetectPickIff(kps, objects[1..]);
      assert forall i :: 0 < i < |objects| ==> objects[i] == objects[1..][i - 1];
    }
  }

  lemma {:induction false} DetectPlaceIff(kps: Keypoints, objects: seq<Obj>)
    ensures DetectPlace(kps, objects) <==> exists i :: 0 <= i < |objects| && PlaceOn(kps, objects[i])
  {
    if objects != [] {
      DetectPlaceIff(kps, objects[1..]);
      assert forall i :: 0 < i < |objects| ==> objects[i] == objects[1..][i - 1];
    }
  }

  predicate DetectWalk(kps: Keypoints)
  {
    Dict.HasKey(kps, "left_ankle") && Dict.HasKey(kps, "right_ankle") &&
    Abs(Dict.Get(kps, "left_ankle").value.x - Dict.Get(kps, "right_ankle").value.x) > 50.0
  }

  /** The label of one frame: the first rule that fires, idle when none does. */
  function DetectAction(pose: Pose, objects: seq<Obj>): (r: Label)
    ensures r in ["reach", "pick", "place", "walk", "idle"]
    ensures r == "reach" <==> DetectReach(pose.keypoints)
    ensures r == "pick" <==> !DetectReach(pose.keypoints) && DetectPick(pose.keypoints, objects)
    ensures r == "place" <==>
      !DetectReach(pose.keypoints) && !DetectPick(pose.keypoints, objects) && DetectPlace(pose.keypoints, objects)
    ensures r == "walk" <==>
      !DetectReach(pose.keypoints) && !DetectPick(pose.keypoints, objects) &&
      !DetectPlace(pose.keypoints, objects) && DetectWalk(pose.keypoints)
    ensures r == "idle" <==>
      !DetectReach(pose.keypoints) && !DetectPick(pose.keypoints, objects) &&
      !DetectPlace(pose.keypoints, objects) && !DetectWalk(pose.keypoints)
  {
    var kps := pose.keypoints;
    if DetectReach(kps) then "reach"
    else if DetectPick(kps, objects) then "pick"
    else if DetectPlace(kps, objects) then "place"
    else if DetectWalk(kps) then "walk"
    else "idle"
  }

  /** Python's ordering of strings: code point by code point, a proper prefix first. */
  predicate StrLe(a: string, b: string)
  {
    if a == [] then true
    else if b == [] then false
    else if a[0] != b[0] then a[0] < b[0]
    else StrLe(a[1..], b[1..])
  }

  function InsertKey(s: seq<string>, k: string): seq<string>
  {
    if s == [] then [k] else if StrLe(k, s[0]) then [k] + s else [s[0]] + InsertKey(s[1..], k)
  }

  /** `sorted(keys)`, by insertion. */
  function SortKeys(s: seq<string>): seq<string>
  {
    if s == [] then [] else InsertKey(SortKeys(s[..|s| - 1]), s[|s| - 1])
  }

  lemma {:induction false} InsertKeyElements(s: seq<string>, k: string)
    ensures multiset(InsertKey(s, k)) == multiset(s) + multiset{k}
  {
    if s != [] && !StrLe(k, s[0]) {
      InsertKeyElements(s[1..], k);
      assert s == [s[0]] + s[1..];
    }
  }

  lemma {:induction false} SortKeysElements(s: seq<string>)
    ensures multiset(SortKeys(s)) == multiset(s)
  {
    if s != [] {
      SortKeysElements(s[..|s| - 1]);
      InsertKeyElements(SortKeys(s[..|s| - 1]), s[|s| - 1]);
      assert s == s[..|s| - 1] + [s[|s| - 1]];
    }
  }

  /** The detections of a frame, or none when the frame has no entry (`objects_data.get(id, [])`). */
  function ObjectsOf(objects: ObjectTrack, key: string): seq<Obj>
  {
    match Dict.Get(objects, key)
    case Some(o) => o
    case None => []
  }

  /** Every key parses as a frame number (otherwise `int(...)` raises). */
  predicate KeysParse(pose: PoseTrack)
  {
    forall k :: k in Dict.Keys(pose) ==> PyFrameNumber(k).Some?
  }

  /** Frame number -> label: each pose frame is labelled under the number in its key. */
  method LabelFrames(pose: PoseTrack, objects: ObjectTrack) returns (r: Option<map<int, Label>>)
    ensures r.None? <==> !KeysParse(pose)
    ensures r.Some? ==> NumbersOf(r.value, Dict.Keys(pose))
    ensures r.Some? ==> LabelledFrom(r.value, Dict.Keys(pose), pose, objects)
  {
    var keys := SortKeys(Dict.Keys(pose));
    SameKeys(Dict.Keys(pose));
    var frameActions: map<int, Label> := map[];
    for i := 0 to |keys|
      invariant Progress(frameActions, keys[..i], pose, objects)
    {
      var key := keys[i];
      var num := PyFrameNumber(key);
      if num.None? {
        assert key in Dict.Keys(pose);
        return None;
      }
      assert key in Dict.Keys(pose);
      var p := Dict.Get(pose, key).value;
      LabelNext(frameActions, keys, i, num.value, pose, objects);
      frameActions := frameActions[num.value := DetectAction(p, ObjectsOf(objects, key))];
    }
    assert keys[..|keys|] == keys;
    SameNumbers(frameActions, keys, Dict.Keys(pose), pose, objects);
    r := Some(frameActions);
  }

  ghost predicate Progress(fa: map<int, Label>, ks: seq<string>, pose: PoseTrack, objects: ObjectTrack)
  {
    (forall k :: k in ks ==> PyFrameNumber(k).Some?) && NumbersOf(fa, ks) && LabelledFrom(fa, ks, pose, objects)
  }

  /** The domain of `fa` is exactly the numbers of the keys `ks`. */
  ghost predicate NumbersOf(fa: map<int, Label>, ks: seq<string>)
  {
    forall n :: n in fa <==> exists k :: k in ks && PyFrameNumber(k) == Some(n)
  }

  /** Each label of `fa` is the rule applied to a pose frame whose key carries that number. */
  ghost predicate LabelledFrom(fa: map<int, Label>, ks: seq<string>, pose: PoseTrack, objects: ObjectTrack)
  {
    forall n :: n in fa ==>
      exists k :: k in ks && PyFrameNumber(k) == Some(n) && Dict.HasKey(pose, k) &&
        fa[n] == DetectAction(Dict.Get(pose, k).value, ObjectsOf(objects, k))
  }

  lemma SameKeys(ks: seq<string>)
    ensures forall k :: k in SortKeys(ks) <==> k in ks
  {
    SortKeysElements(ks);
    assert forall k :: k in SortKeys(ks) <==> k in multiset(SortKeys(ks));
    assert forall k :: k in ks <==> k in multiset(ks);
  }

  lemma LabelStep(fa: map<int, Label>, ks: seq<string>, k: string, n: int, pose: PoseTrack, objects: ObjectTrack)
    requires Progress(fa, ks, pose, objects)
    requires PyFrameNumber(k) == Some(n) && Dict.HasKey(pose, k)
    ensures Progress(fa[n := DetectAction(Dict.Get(pose, k).value, ObjectsOf(objects, k))], ks + [k], pose, objects)
  {
    var v := DetectAction(Dict.Get(pose, k).value, ObjectsOf(objects, k));
    forall k' | k' in ks + [k] ensures PyFrameNumber(k').Some? {
      if k' != k { assert k' in ks; }
    }
    NumbersStep(fa, ks, k, n, v);
    LabelledStep(fa, ks, k, n, pose, objects);
  }

  lemma NumbersStep(fa: map<int, Label>, ks: seq<string>, k: string, n: int, v: Label)
    requires NumbersOf(fa, ks) && PyFrameNumber(k) == Some(n)
    ensures NumbersOf(fa[n := v], ks + [k])
  {
    forall m ensures m in fa[n := v] <==> exists k' :: k' in ks + [k] && PyFrameNumber(k') == Some(m) {
      if m in fa[n := v] {
        if m == n {
          assert k in ks + [k];
        } else {
          var k' :| k' in ks && PyFrameNumber(k') == Some(m);
          assert k' in ks + [k];
        }
      }
      if exists k' :: k' in ks + [k] && PyFrameNumber(k') == Some(m) {
        var k' :| k' in ks + [k] && PyFrameNumber(k') == Some(m);
        if k' != k { assert k' in ks; }
      }
    }
  }

  lemma LabelledStep(fa: map<int, Label>, ks: seq<string>, k: string, n: int, pose: PoseTrack, objects: ObjectTrack)
    requires LabelledFrom(fa, ks, pose, objects)
    requires PyFrameNumber(k) == Some(n) && Dict.HasKey(pose, k)
    ensures LabelledFrom(fa[n := DetectAction(Dict.Get(pose, k).value, ObjectsOf(objects, k))], ks + [k], pose, objects)
  {
    var fa' := fa[n := DetectAction(Dict.Get(pose, k).value, ObjectsOf(objects, k))];
    forall m | m in fa'
      ensures exists k' :: (k' in ks + [k] && PyFrameNumber(k') == Some(m) && Dict.HasKey(pose, k') &&
        fa'[m] == DetectAction(Dict.Get(pose, k').value, ObjectsOf(objects, k')))
    {
      if m != n {
        var k' :| k' in ks && PyFrameNumber(k') == Some(m) && Dict.HasKey(pose, k') &&
          fa[m] == DetectAction(Dict.Get(pose, k').value, ObjectsOf(objects, k'));
        assert k' in ks + [k];
      } else {
        assert k in ks + [k];
      }
    }
  }

  lemma LabelNext(fa: map<int, Label>, keys: seq<string>, i: nat, n: int, pose: PoseTrack, objects: ObjectTrack)
    requires i < |keys| && Progress(fa, keys[..i], pose, objects)
    requires PyFrameNumber(keys[i]) == Some(n) && Dict.HasKey(pose, keys[i])
    ensures Progress(fa[n := DetectAction(Dict.Get(pose, keys[i]).value, ObjectsOf(objects, keys[i]))], keys[..i + 1], pose, objects)
  {
    PrefixStep(keys, i);
    LabelStep(fa, keys[..i], keys[i], n, pose, objects);
  }

  lemma SameNumbers(fa: map<int, Label>, ks: seq<string>, ks': seq<string>, pose: PoseTrack, objects: ObjectTrack)
    requires forall k :: k in ks <==> k in ks'
    requires Progress(fa, ks, pose, objects)
    ensures KeysParse(pose) || ks' != Dict.Keys(pose)
    ensures NumbersOf(fa, ks') && LabelledFrom(fa, ks', pose, objects)
  {
  }

  /** The labelled frames as observations in ascending frame order. */
  function Observed(frameActions: map<int, Label>): (obs: Observations)
    ensures |obs| == |frameActions|
  {
    AscendingProperties(frameActions.Keys);
    Pair(Ascending(frameActions.Keys), frameActions)
  }

  /** Each frame of `frames` with its action, in the order of `frames`. */
  function Pair(frames: seq<int>, frameActions: map<int, Label>): (obs: Observations)
    requires forall i :: 0 <= i < |frames| ==> frames[i] in frameActions
    ensures |obs| == |frames|
    ensures forall i :: 0 <= i < |obs| ==> obs[i] == (frames[i], frameActions[frames[i]])
  {
    if frames == [] then [] else [(frames[0], frameActions[frames[0]])] + Pair(frames[1..], frameActions)
  }

  /** The observations are the map's entries, each once, in strictly increasing frame order. */
  lemma ObservedEntries(frameActions: map<int, Label>)
    ensures var obs := Observed(frameActions);
      StrictlyIncreasing(obs) &&
      (forall i :: 0 <= i < |obs| ==> obs[i].0 in frameActions && obs[i].1 == frameActions[obs[i].0]) &&
      (forall f :: f in frameActions ==> exists i :: 0 <= i < |obs| && obs[i].0 == f)
  {
    ObservedIncreasing(frameActions);
    ObservedComplete(frameActions);
    AscendingProperties(frameActions.Keys);
    assert Observed(frameActions) == Pair(Ascending(frameActions.Keys), frameActions);
  }

  lemma ObservedIncreasing(frameActions: map<int, Label>)
    ensures StrictlyIncreasing(Observed(frameActions))
  {
    var frames := Ascending(frameActions.Keys);
    AscendingProperties(frameActions.Keys);
    assert Observed(frameActions) == Pair(frames, frameActions);
  }

  lemma ObservedComplete(frameActions: map<int, Label>)
    ensures forall f :: f in frameActions ==> exists i :: 0 <= i < |Observed(frameActions)| && Observed(frameActions)[i].0 == f
  {
    var frames := Ascending(frameActions.Keys);
    AscendingProperties(frameActions.Keys);
    var obs := Observed(frameActions);
    assert obs == Pair(frames, frameActions);
    forall f | f in frameActions ensures exists i :: 0 <= i < |obs| && obs[i].0 == f {
      assert f in frameActions.Keys;
      var i := IndexIn(frames, f);
      assert obs[i].0 == frames[i];
    }
  }

  lemma IndexIn(s: seq<int>, x: int) returns (i: nat)
    requires x in s
    ensures i < |s| && s[i] == x
  {
    i :| 0 <= i < |s| && s[i] == x;
  }

  /**
   * Groups the labelled frames: a change of label closes the current segment at the frame
   * before and opens a new one; the final segment ends at the largest frame.
   */
  method GroupFrames(frameActions: map<int, Label>) returns (segments: seq<Segment>)
    ensures segments == Runs(Observed(frameActions))
  {
    segments := [];
    if |frameActions| == 0 {
      return;
    }
    segments := GroupObservations(Observed(frameActions));
  }

  /**
   * The grouping loop proper. Iterating sorted(frame_actions.keys()) and looking each
   * action up is iterating the observations in ascending frame order; the loop runs only
   * when there is at least one.
   */
  method GroupObservations(obs: Observations) returns (segments: seq<Segment>)
    requires |obs| > 0
    ensures segments == Runs(obs)
  {
    segments := [];
    var current: Option<Label> := None;
    var startFrame := 1;
    for i := 0 to |obs|
      invariant current.None? <==> i == 0
      invariant i == 0 ==> segments == []
      invariant i > 0 ==> RunsUpTo(obs, i) == segments + [Segment(current.value, startFrame, obs[i - 1].0)]
    {
      var (frame, action) := obs[i];
      RunsAdvance(obs, i, segments, current, startFrame);
      if current != Some(action) {
        if current.Some? {
          segments := segments + [Segment(current.value, startFrame, frame - 1)];
        }
        current := Some(action);
        startFrame := frame;
      }
    }
    // max(frame_actions.keys()) is the last of the ascending frames.
    segments := segments + [Segment(current.value, startFrame, obs[|obs| - 1].0)];
  }

  /**
   * The whole offline recognizer without confidences: label every frame, then group. None
   * means a key did not parse and the conversion raised.
   */
  method ExtractSegments(pose: PoseTrack, objects: ObjectTrack) returns (r: Option<seq<Segment>>)
    ensures r.None? <==> !KeysParse(pose)
    ensures r.Some? ==> WellFormed(r.value)
    ensures r.Some? ==> (r.value == [] <==> pose == [])
    ensures r.Some? ==> exists fa ::
      (NumbersOf(fa, Dict.Keys(pose)) && LabelledFrom(fa, Dict.Keys(pose), pose, objects) && r.value == Runs(Observed(fa)))
  {
    var labels := LabelFrames(pose, objects);
    if labels.None? {
      return None;
    }
    var segments := GroupFrames(labels.value);
    ghost var obs := Observed(labels.value);
    ObservedEntries(labels.value);
    RunsShape(obs);
    if pose != [] {
      assert pose[0].0 in Dict.Keys(pose);
      var n := PyFrameNumber(pose[0].0).value;
      assert n in labels.value;
      assert |obs| > 0;
    } else {
      assert labels.value == map[];
    }
    assert segments == Runs(Observed(labels.value));
    r := Some(segments);
  }
}
