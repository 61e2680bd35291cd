# humanosync annotation core in Dafny

This project models the annotation-data core of humanosync. In humanosync, a user uploads a video and a backend extracts pose keypoints, object detections and action segments per frame. Editor pages then let a person correct those annotations and export them.

What is modelled:

- **Backend store and query routes** (`annotations.py`, `extract.py`):
  - the three JSON files per video (pose track, object track, action list);
  - the bulk save, the one-frame updates, and adding and deleting actions;
  - the frame query, with every HTTP error path.
- **Action extraction** (`services/actions.py`):
  - the per-frame rule classifier;
  - the run-length grouping of the frame labels into segments.
- **The processing pipeline's recogniser** (`process_video.py`):
  - the sliding pose buffer, the movement analysis and the classifier;
  - the per-frame bookkeeping of `VideoProcessor`;
  - the segment grouping.
- **Export** (`routes/export.py`): the CSV, YAML (ROS-style) and JSON exports and the export summary.
- **Upload routes** (`routes/upload.py`): the extension check, the processing status table and the video info.
- **The editor front end**:
  - the pages `AnnotatePage`, `CleanAnnotatePage`, `UploadPage` and `ExportPage`;
  - the components `AnnotationEditor`, `ActionTimeline`, `BoundingBoxEditor`, `CanvasOverlay`, `PoseOverlay`, `VideoViewer`, `VideoPlayer` and `VideoUpload`.
  - Their state lives in classes whose methods are the event handlers. The server replies and the browser events are parameters.

How source types map to the model:

- Python dictionaries and JavaScript objects keyed by frame (`frame_000`, `frame_001`, …) are insertion-ordered association lists (`Dict`). Their `Put` updates in place or appends, as `d[k] = v` does.
- Files on disk are `Absent | Stored(data) | Unreadable`. `Unreadable` stands for a file whose `json.load` raises.
- Coordinates and times are exact reals.
- The `label` field of detections and actions is called `name`, because `label` is a Dafny keyword.

Where the specification of the system and the code disagree, the model follows the code:

- The backend `add_action` route does not reject an action whose start is after its end. Only the timeline dialog checks `start_frame <= end_frame` before sending (`ActionTimeline.Timeline.AddAction`).
- Pose hit-testing takes the first keypoint within the radius in key order, not the nearest one (`CanvasOverlay.FirstHitNotNearest`).
- Time-to-frame mapping does not clamp to the clip length; `OneBasedFrame` is the bare `floor(t·30)+1`.
- The action list is kept sorted only by the backend's `add_action` and by the page's local copy. The bulk save stores whatever list it is given.

## Model

| member | source | states |
|---|---|---|
| Dict.GetPut | backend/routes/annotations.py:86 | after `d[k] = v`, reading `k` gives `v` and every other key reads as before |
| Dict.PutKeys | backend/routes/annotations.py:109 | assigning an existing key keeps the key order; a new key is appended at the end |
| Dict.PutNew | backend/process_video.py:458 | assigning a key not yet present appends the pair |
| Text.ValueOfDigits | frontend/src/components/AnnotationEditor.jsx:43 | the decimal text of `n` reads back as `n` |
| Text.PadStart | frontend/src/components/AnnotationEditor.jsx:43 | `padStart` yields at least `width` characters, ends with the original text and is filled with the pad character in front |
| Annotation.ActionsAt | backend/routes/extract.py:75-81 | an action is in the result exactly when it is stored and `start_frame <= frame <= end_frame`; no more actions than stored |
| Annotation.ActionsAtAppend | backend/routes/extract.py:78-81 | the filter keeps the stored order: filtering a concatenation is the concatenation of the filters |
| Annotation.FirstActiveIsEarliest | frontend/src/components/CanvasOverlay.jsx:112-114 | `find` returns nothing exactly when no action is active, else the earliest active action in list order |
| Annotation.FirstActiveIsHead | frontend/src/components/CanvasOverlay.jsx:112-114 | the first active action is the head of the active-actions filter |
| Annotation.SortByStartProperties | backend/routes/annotations.py:131-134 | sorting by `start_frame` yields a sorted list that is a permutation of its input |
| Annotation.InsertByStartProperties | backend/routes/annotations.py:134 | inserting into a sorted list keeps it sorted and adds exactly that action |
| Annotation.SortSorted | backend/routes/annotations.py:134 | sorting an already sorted list changes nothing (the sort is stable) |
| Annotation.AddToSorted | backend/routes/annotations.py:131-134 | appending then sorting a sorted list places the new action after every action with start `<=` its own and before every later one |
| Annotation.InsertLast | backend/routes/annotations.py:131-134 | an action starting no earlier than all others ends up last |
| Annotation.RemoveIndex | backend/routes/annotations.py:156 | `pop(i)` / `filter((_, i) => i !== index)`: a valid index removes exactly that element and shifts the rest; any other index leaves the list unchanged |
| FrameKeys.PyFrameNumberOfKey | backend/routes/extract.py:54 | `int(key.split('_')[1])` on `f"frame_{n:03d}"` gives back `n`, for every integer including negatives |
| FrameKeys.PyFrameKeyInjective | backend/process_video.py:458 | distinct frame numbers give distinct keys |
| FrameKeys.KeysAgree | frontend/src/pages/AnnotatePage.jsx:150 | for non-negative frames the front end's `padStart(3,'0')` key equals the backend's `%03d` key |
| FrameKeys.JsFrameNumberOfKey | frontend/src/pages/CleanAnnotatePage.jsx:88 | `parseInt(key.replace('frame_', ''))` recovers the frame from both key forms |
| FrameKeys.JsKeyOfMinusOne | frontend/src/pages/AnnotatePage.jsx:150 | frame -1 is keyed `frame_0-1`, which parses back as 0 |
| FrameTime.ZeroBasedFrame | frontend/src/pages/CleanAnnotatePage.jsx:441 | the frame is the one whose interval `[f, f+1)` contains `t·30`; non-negative for non-negative time |
| FrameTime.OneBasedFrame | frontend/src/components/VideoViewer.jsx:22 | the one-based frame is the zero-based one plus 1; `t` lies in that frame's time slot; at least 1 for `t >= 0` |
| FrameTime.OneBasedRoundTrip | frontend/src/components/VideoViewer.jsx:13-22 | seeking to a frame's start time and reading the frame back gives the same frame |
| Skeleton.DrawnEdges | frontend/src/components/CanvasOverlay.jsx:65-76 | a connection is drawn exactly when it is in the table and both endpoints are present |
| Skeleton.DrawnEdgesComplete | frontend/src/components/CanvasOverlay.jsx:65-76 | with every joint present the whole table is drawn, in table order |
| Skeleton.DrawnEdgesSnoc | frontend/src/components/PoseOverlay.jsx:47-64 | the filter proceeds connection by connection, in table order |
| AnnotationStore.SavedSections | backend/routes/annotations.py:44-67 | pose, objects and actions are reported as saved exactly when that section is non-empty, in that order |
| AnnotationStore.VideoData.constructor | backend/routes/annotations.py:38-40 | a video directory with its three files; no files without the directory |
| AnnotationStore.VideoData.SaveAnnotations | backend/routes/annotations.py:34-68 | 422 for a pose missing its confidence, then 404 without the directory; succeeds exactly otherwise; overwrites only the non-empty sections and reports them; an error changes nothing |
| AnnotationStore.VideoData.UpdatePoseFrame | backend/routes/annotations.py:70-91 | 422 without confidence, 404 without the pose file, 500 on an unreadable file; success exactly for a stored file, which gets the frame assigned; an error changes nothing |
| AnnotationStore.VideoData.UpdateObjectsFrame | backend/routes/annotations.py:93-114 | 404 without the file, 500 unreadable; success exactly for a stored file, which gets the frame's list assigned; an error changes nothing |
| AnnotationStore.VideoData.AddAction | backend/routes/annotations.py:116-139 | succeeds exactly when the directory exists and the file is readable; a missing file becomes `[action]`, a stored one `sorted(old + [action])` by start; an error changes nothing |
| AnnotationStore.VideoData.DeleteAction | backend/routes/annotations.py:141-161 | 404 without the file or for an index out of range, 500 unreadable; success removes exactly the indexed action and names it in the message; an error changes nothing |
| AnnotationStore.SaveAsWrittenFailsOnModels | backend/routes/annotations.py:45-60 | as written, a valid save into an existing directory fails (500) exactly when it has a pose frame or an object detection to encode; the failing file is left unreadable; otherwise it writes and reports what the corrected save does |
| AnnotationStore.SaveAsWrittenKeepsEmptyFrames | backend/routes/annotations.py:51-56 | as written, an object section whose frames have no detections is written and reported |
| AnnotationStore.SaveAsWrittenLosesPose | backend/routes/annotations.py:45-56 | as written, saving a valid pose frame leaves the pose file truncated (unreadable) and answers 500 |
| FrameQuery.Load | backend/routes/extract.py:13-18 | a missing file is 404 with the route's detail, an unreadable one 500, a stored one its contents |
| FrameQuery.GetPoseData | backend/routes/extract.py:8-20 | succeeds exactly when the pose file is stored, returning its contents unchanged; 404 "Pose data not found" when absent |
| FrameQuery.GetObjectsData | backend/routes/extract.py:22-34 | succeeds exactly when the objects file is stored, returning it unchanged; 404 when absent |
| FrameQuery.GetActionsData | backend/routes/extract.py:36-48 | succeeds exactly when the actions file is stored, returning it unchanged; 404 when absent |
| FrameQuery.GetFrameData | backend/routes/extract.py:50-83 | fails exactly when a file is unreadable; otherwise the frame's pose and objects are present exactly when their file has the frame's key, and the actions are those active at the frame |
| FrameQuery.UpdatedPoseIsQueried | backend/routes/annotations.py:86 | a pose written for frame `n` is what the frame query then reads for `n` |
| Segments.RunsShape | backend/services/actions.py:43-68 | grouping increasing observations gives no segment exactly for no observation; segments are ordered, gap-free, with differing neighbouring labels, from the first to the last frame |
| Segments.RunsCover | backend/services/actions.py:43-68 | every observed frame lies inside a segment that carries its label |
| Segments.ExtendShape | backend/process_video.py:341-352 | one more observation keeps the segments well formed and ends them at the new frame |
| Segments.ExtendCoversNew | backend/process_video.py:341-352 | the new observation is covered with its own label |
| Segments.ExtendKeepsCover | backend/process_video.py:341-352 | earlier frames stay covered with their labels |
| Segments.RunsAdvance | backend/process_video.py:341-362 | the loop's step (close the open run at `f-1` and open a new one, or lengthen it) is the grouping of one more observation |
| Segments.AscendingProperties | backend/services/actions.py:46 | `sorted(frame_actions.keys())` lists each key once, in increasing order |
| ActionRules.DetectPickIff | backend/services/actions.py:114-129 | pick holds exactly when some cup, bottle, phone or book is within reach of the right wrist |
| ActionRules.DetectPlaceIff | backend/services/actions.py:131-145 | place holds exactly when some table, desk or counter is under the wrist |
| ActionRules.DetectAction | backend/services/actions.py:77-91 | reach, then pick, then place, then walk take priority in that order; idle exactly when none holds |
| ActionRules.SortKeysElements | backend/services/actions.py:32 | `sorted(pose_data.keys())` is a permutation of the keys |
| ActionRules.LabelFrames | backend/services/actions.py:32-40 | fails exactly when some key does not parse as `frame_<int>`; otherwise labels exactly the parsed frames, each with the rule result of its pose and that frame's objects |
| ActionRules.ObservedEntries | backend/services/actions.py:46-47 | the frame labels in increasing frame order, each frame once |
| ActionRules.GroupFrames | backend/services/actions.py:43-68 | the loop computes the run-length grouping of the labelled frames in frame order |
| ActionRules.ExtractSegments | backend/services/actions.py:20-68 | fails exactly on an unparseable key; otherwise the segments are the run-length grouping, in frame order, of a labelling that gives each parsed frame the rule result of its pose and objects; they are well formed, and there are none exactly when there is no pose frame |
| Recognizer.BufferIsRecentSuffix | backend/process_video.py:222-237 | the buffer holds the last `min(n, 30)` poses added |
| Recognizer.AnalyzeMovements | backend/process_video.py:277-327 | an empty buffer shows no movement; each movement flag requires the keypoints its test reads |
| Recognizer.MovementsFromEnds | backend/process_video.py:283-327 | the analysis depends only on the first and the last pose of the buffer |
| Recognizer.StillNeitherWalksNorSits | backend/process_video.py:297-325 | identical first and last poses are classified neither walking nor sitting |
| Recognizer.Classify | backend/process_video.py:253-275 | wave, walk, reach, pick, sit take priority in that order; stand exactly when no flag is set |
| Recognizer.SegmentActions | backend/process_video.py:344-359 | each segment becomes one action with its label and frames and confidence 0.85, in order |
| Recognizer.ActionRecognizer.constructor | backend/process_video.py:216-220 | an empty buffer and no detections |
| Recognizer.ActionRecognizer.AddPose | backend/process_video.py:222-237 | the buffer becomes the last 30 of the old buffer plus the new pose |
| Recognizer.ActionRecognizer.RecognizeAction | backend/process_video.py:239-251 | no action exactly with fewer than 10 buffered poses; otherwise the classification of the buffer's movements |
| Recognizer.ActionRecognizer.GetActionSegments | backend/process_video.py:329-362 | the segments are the run-length grouping of the detections in frame order |
| Recognizer.VideoProcessor.constructor | backend/process_video.py:368-388 | empty results and a fresh recogniser |
| Recognizer.VideoProcessor.ProcessFrame | backend/process_video.py:450-479 | the pose is stored under the frame's key; objects only on every fifth frame; the recogniser takes one step and its detections stay in frame order |
| Recognizer.VideoProcessor.FeedRecognizer | backend/process_video.py:464-474 | a pose with keypoints is buffered and, once 10 are buffered, a detection is recorded for the frame |
| Recognizer.VideoProcessor.ReadFrames | backend/process_video.py:410-431 | fails exactly when the frame count is 0 and a frame is read (division by zero); otherwise reads `min(n, 300)` frames; stores frame `i`'s pose under `frame_i` and objects on every fifth frame; the recognizer's buffer and detections are those of feeding it the processed frames in order |
| Recognizer.VideoProcessor.Process | backend/process_video.py:390-444 | as ReadFrames, and on success the actions are the run-length grouping, with confidence 0.85, of the detections that feeding the processed frames in order records |
| Recognizer.RecognizedFromEmpty | backend/process_video.py:222-251 | from an empty recognizer, the buffer is that of the poses with keypoints fed so far, and every such pose from the tenth on records exactly one action |
| Recognizer.StoredObjectsStep | backend/process_video.py:476-479 | the objects dictionary holds exactly the frames divisible by 5 read so far |
| Recognizer.NextObjectKeyIsNew | backend/process_video.py:479 | the next object frame's key is not yet present, so the assignment appends |
| Export.LoadAll | backend/routes/export.py:23-39 | succeeds exactly when no present file is unreadable (500 otherwise), with each section present exactly when its file is |
| Export.ColumnsCount | backend/routes/export.py:71-79 | a pose row has two columns per keypoint plus one per keypoint with a z value |
| Export.ZColumnIffThird | backend/routes/export.py:76-77 | a keypoint yields a third `_z` column exactly when it has a z value |
| Export.KeypointColumns | backend/routes/export.py:73-77 | the loop produces the keypoint columns in keypoint order |
| Export.PoseRows | backend/routes/export.py:71-79 | succeeds exactly when every frame has a confidence (500 otherwise), one row per frame in order |
| Export.ObjectRowsCount | backend/routes/export.py:91-101 | one CSV object row per detection over all frames |
| Export.ObjectRowsFromDetections | backend/routes/export.py:93-101 | every object row comes from a detection of some frame |
| Export.ObjectRows | backend/routes/export.py:91-101 | the nested loop produces the rows of every frame's detections in order |
| Export.ExportCsv | backend/routes/export.py:62-123 | fails (500) exactly when a pose frame lacks confidence; each section is present as loaded, with one pose row per frame and one object row per detection in stored order, and the actions as stored |
| Export.RosPoses | backend/routes/export.py:144-152 | succeeds exactly when every key parses and every frame has a confidence; one entry per frame |
| Export.RosObjectsCount | backend/routes/export.py:155-170 | one ROS object entry per detection |
| Export.RosObjects | backend/routes/export.py:155-170 | succeeds exactly when every key parses; the entries of every frame in order |
| Export.RosActions | backend/routes/export.py:173-182 | one entry per action, in order |
| Export.ExportYaml | backend/routes/export.py:125-192 | succeeds exactly when every key parses and every pose frame has a confidence; header sequence 1, stamp 0, frame id the video id, version 1.0; one pose, object and action entry per frame, detection and action in stored order, none for an absent section |
| Export.RosPoseFrames | backend/routes/export.py:146 | keys written as `frame_%03d` export their own frame numbers |
| Export.ExportAnnotations | backend/routes/export.py:12-48 | 404 without the directory, 500 on an unreadable file, 400 for a format other than json/csv/yaml; succeeds exactly when the files are readable, the format is supported and its exporter goes through (500 otherwise); names the file `<id>_annotations.<fmt>`; the body is the loaded files (json) or the CSV or YAML document of them |
| Export.Labels | backend/routes/export.py:236 | the label set is exactly the labels of the actions |
| Export.LabelsBound | backend/routes/export.py:236 | no more distinct labels than actions, and at least one when there is an action |
| Export.ExportSummary | backend/routes/export.py:194-239 | 404 without the directory; succeeds exactly on readable files; frame count, keypoints of the first frame (or 0), total detections, action count and labels |
| Export.SumLengths | backend/routes/export.py:223 | the loop's total is the number of detections over all frames |
| Upload.Suffix | backend/routes/upload.py:66 | pathlib's suffix: empty, or a dot then at least one non-dot character, ending the file name |
| Upload.AcceptedByLastExtension | backend/routes/upload.py:65-68 | a name is accepted exactly when its last extension, lower-cased, is .mp4, .avi or .mov |
| Upload.HiddenFileRejected | backend/routes/upload.py:65-68 | a name that is only an extension (`.mp4`) has no suffix and is refused |
| Upload.AcceptedEndsWithAllowed | backend/routes/upload.py:65-68 | an accepted name ends, case-insensitively, with an allowed extension |
| Upload.FormVideo | backend/routes/upload.py:58-61 | the upload succeeds in reading the form exactly when it has the field `video`; 422 otherwise |
| Upload.Outcome | backend/routes/upload.py:50-55 | the status is `completed` exactly on success, else `error: ` followed by the message |
| Upload.UploadService.constructor | backend/routes/upload.py:17 | no status and no videos |
| Upload.UploadService.UploadVideo | backend/routes/upload.py:57-91 | succeeds exactly for an accepted name, which is recorded as queued; a 400 records nothing |
| Upload.UploadService.UploadRequest | backend/routes/upload.py:57-91 | a form without `video` is 422 and changes nothing; otherwise as UploadVideo |
| Upload.UploadService.ProcessVideo | backend/routes/upload.py:19-55 | the video's status becomes the outcome of processing |
| Upload.UploadService.GetProcessingStatus | backend/routes/upload.py:93-103 | 404 exactly for an unknown id, else its status, which is always one of the known statuses |
| Upload.UploadService.GetVideoInfo | backend/routes/upload.py:127-154 | 404 without the directory, 500 on an unreadable pose file; which files exist, the frame count of the pose file, and the status or `unknown` |
| AnnotatePage.TotalFrames | frontend/src/pages/AnnotatePage.jsx:54-59 | the frame count is the largest of 100 and the sizes of both tracks |
| AnnotatePage.PatchedPose | frontend/src/pages/AnnotatePage.jsx:69-72 | the edited frame keeps its confidence and takes the new keypoints; an absent frame gets no confidence |
| AnnotatePage.FrameViewAt | frontend/src/pages/AnnotatePage.jsx:149-158 | the frame's pose, its objects or `[]`, and exactly the actions active at the frame |
| AnnotatePage.PoseEditShown | frontend/src/pages/AnnotatePage.jsx:68-87 | after a pose edit the current frame shows the new keypoints with the old confidence |
| AnnotatePage.PoseEditLocal | frontend/src/pages/AnnotatePage.jsx:68-87 | a pose edit leaves every other frame as it was |
| AnnotatePage.AnnotateSession.constructor | frontend/src/pages/AnnotatePage.jsx:22-32 | loading, frame 1, 100 frames, pose tool, empty document, no changes |
| AnnotatePage.AnnotateSession.Load | frontend/src/pages/AnnotatePage.jsx:38-66 | on success the document is the loaded data (missing parts empty) and the frame count is recomputed; loading ends either way |
| AnnotatePage.AnnotateSession.PoseUpdate | frontend/src/pages/AnnotatePage.jsx:68-87 | sends the patched pose; on success the local frame takes it and changes are flagged; on failure nothing changes |
| AnnotatePage.AnnotateSession.ObjectsUpdate | frontend/src/pages/AnnotatePage.jsx:89-103 | on success the frame's objects are replaced and changes flagged; on failure nothing changes |
| AnnotatePage.AnnotateSession.ActionAdd | frontend/src/pages/AnnotatePage.jsx:105-119 | on success the local list stays sorted by start and gains exactly the action; on failure nothing changes |
| AnnotatePage.AnnotateSession.ActionDelete | frontend/src/pages/AnnotatePage.jsx:121-134 | on success the indexed action is removed; on failure nothing changes |
| AnnotatePage.AnnotateSession.BeginSave | frontend/src/pages/AnnotatePage.jsx:136-139 | raises the saving flag and sends the whole local document |
| AnnotatePage.AnnotateSession.EndSave | frontend/src/pages/AnnotatePage.jsx:140-147 | the saving flag drops; the unsaved-changes flag is cleared only by a successful save |
| AnnotatePage.AnnotateSession.SaveAll | frontend/src/pages/AnnotatePage.jsx:136-147 | the whole save: the document is sent, changes stay flagged after a failure |
| AnnotatePage.AnnotateSession.PrevFrame | frontend/src/pages/AnnotatePage.jsx:270 | steps back one frame but not below 1 |
| AnnotatePage.AnnotateSession.NextFrame | frontend/src/pages/AnnotatePage.jsx:279 | steps forward one frame but not beyond the frame count |
| AnnotatePage.AnnotateSession.SetFrame | frontend/src/pages/AnnotatePage.jsx:246 | the current frame becomes the reported one |
| CleanAnnotate.OrDefault | frontend/src/pages/CleanAnnotatePage.jsx:112 | `confidence \|\| 0.9`: the frame's confidence unless missing or 0, then 0.9 |
| CleanAnnotate.ConvertKeypointPlacement | frontend/src/pages/CleanAnnotatePage.jsx:98-105 | normalised coordinates are scaled into the assumed 1920×1080 frame, pixel coordinates kept, a missing z becomes 0 |
| CleanAnnotate.ConvertFrameKeypoints | frontend/src/pages/CleanAnnotatePage.jsx:92-114 | the loop converts every keypoint of the frame, in order |
| CleanAnnotate.RekeyedLast | frontend/src/pages/CleanAnnotatePage.jsx:87-88 | re-keying by parsed frame number keeps the last entry written for each number |
| CleanAnnotate.ConvertPoseData | frontend/src/pages/CleanAnnotatePage.jsx:82-121 | the loop re-keys every frame by its number and converts its keypoints |
| CleanAnnotate.ConvertedPoseFrames | frontend/src/pages/CleanAnnotatePage.jsx:88 | a backend frame `frame_NNN` is found under `NNN` with its converted keypoints |
| CleanAnnotate.ConvertBox | frontend/src/pages/CleanAnnotatePage.jsx:135-142 | `[x1,y1,x2,y2]` becomes x, y, width, height with the same corners |
| CleanAnnotate.ConvertFrameBoxes | frontend/src/pages/CleanAnnotatePage.jsx:133-144 | every detection of a frame is converted, in order |
| CleanAnnotate.ConvertObjectData | frontend/src/pages/CleanAnnotatePage.jsx:124-150 | the loop re-keys every frame's boxes by frame number |
| CleanAnnotate.RecognizerLabelsListed | frontend/src/pages/CleanAnnotatePage.jsx:156-177 | every label the processing pipeline's recognizer produces is in the page's table, and only `walk` gets the blue that also marks an unknown label |
| CleanAnnotate.RuleLabelsDrawnBlue | frontend/src/pages/CleanAnnotatePage.jsx:156-177 | of the extraction service's rule labels only reach and pick get their own colour; place and idle fall back to the blue of walk, so the three look alike |
| CleanAnnotate.ConvertedActionsKeepFields | frontend/src/pages/CleanAnnotatePage.jsx:175-178 | conversion keeps every backend field, so the backend action is recovered |
| CleanAnnotate.ObjectFrame | frontend/src/pages/CleanAnnotatePage.jsx:368-371 | the walk stops at the nearest frame at or below the current one with boxes, or at -1 |
| CleanAnnotate.DrawnBoxes | frontend/src/pages/CleanAnnotatePage.jsx:366-373 | the boxes drawn are those of the nearest earlier frame with data; none if no such frame |
| CleanAnnotate.CurrentFrame | frontend/src/pages/CleanAnnotatePage.jsx:441 | the zero-based frame whose interval contains `t·30` |
| CleanAnnotate.SeekTarget | frontend/src/pages/CleanAnnotatePage.jsx:425-429 | the seek target is the moved time clamped to `[0, duration]` |
| CleanAnnotate.CurrentLabelAsWrittenIsNone | frontend/src/pages/CleanAnnotatePage.jsx:689-693 | as written, the "Current" label is always `none`, whatever the actions |
| CleanAnnotate.ActiveWalkNotShown | frontend/src/pages/CleanAnnotatePage.jsx:575-577 | as written, a walk over frames 0–10 is not shown at frame 5 |
| CleanAnnotate.CurrentLabelIsFirstActive | frontend/src/pages/CleanAnnotatePage.jsx:689-693 | read from `start_frame`/`end_frame`, the label is that of the first active action, or `none` |
| CleanAnnotate.ShownIffActive | frontend/src/pages/CleanAnnotatePage.jsx:575-577 | read from `start_frame`/`end_frame`, an action is shown exactly when it is active |
| AnnotationEditor.Editor.constructor | frontend/src/components/AnnotationEditor.jsx:8-10 | frame 1, pose tool, paused, editing the given annotations |
| AnnotationEditor.Editor.AnnotationsChanged | frontend/src/components/AnnotationEditor.jsx:15-17 | the edited copy is replaced by the new annotations |
| AnnotationEditor.Editor.FrameChange | frontend/src/components/AnnotationEditor.jsx:19-21 | the current frame becomes the reported one |
| AnnotationEditor.Editor.HandleAnnotationEdit | frontend/src/components/AnnotationEditor.jsx:23-35 | a shallow copy whose pose or objects track (shared with the parent) gets the frame assigned |
| AnnotationEditor.Editor.HandleSave | frontend/src/components/AnnotationEditor.jsx:37-40 | the edited copy is what is saved |
| AnnotationEditor.Editor.CurrentFrameData | frontend/src/components/AnnotationEditor.jsx:42-49 | the current frame's pose and objects under its padded key, and all actions |
| AnnotationEditor.SharedTrackEdit | frontend/src/components/AnnotationEditor.jsx:23-29 | the shallow copy shares its track with the parent, so an edit also changes the parent's pose track at that frame only |
| ActionTimeline.ClickFrame | frontend/src/components/ActionTimeline.jsx:19-25 | a click maps to the frame whose slice of the bar contains it, clamped to `[1, total]` |
| ActionTimeline.UnlistedLabelsDefault | frontend/src/components/ActionTimeline.jsx:40-49 | labels other than reach, pick, place, walk and idle get the default purple `#9333EA` |
| ActionTimeline.RuleLabelsColoured | frontend/src/components/ActionTimeline.jsx:40-49 | every label the extraction service's rule classifier produces is listed and gets a colour other than the default |
| ActionTimeline.RecognizerLabelsColour | frontend/src/components/ActionTimeline.jsx:40-49 | of the processing pipeline's labels, exactly wave, sit and stand are drawn in the default purple |
| ActionTimeline.MarkerInsideBlock | frontend/src/components/ActionTimeline.jsx:68-70 | the frame marker lies inside an action's block exactly when the action is active at that frame |
| ActionTimeline.BlockDelete | frontend/src/components/ActionTimeline.jsx:82-87 | a block is deleted exactly when the confirmation is accepted, by its index |
| ActionTimeline.FreshDraft | frontend/src/components/ActionTimeline.jsx:12-17 | a new draft has no label, starts at the current frame, ends 10 later, confidence 0.9 |
| ActionTimeline.Timeline.AddAction | frontend/src/components/ActionTimeline.jsx:27-38 | sends the draft exactly when it has a label and start `<=` end, then closes the dialog and resets the draft; otherwise nothing changes |
| BoundingBoxEditor.DrawnRect | frontend/src/components/BoundingBoxEditor.jsx:103-105 | a box is drawn at its top-left corner with width and height reaching its far corner |
| BoundingBoxEditor.BoxOfRect | frontend/src/components/BoundingBoxEditor.jsx:21-26 | a dragged rectangle becomes the box with that corner and size |
| BoundingBoxEditor.DragRoundTrip | frontend/src/components/BoundingBoxEditor.jsx:15-30 | a rectangle turned into a box draws back as the same rectangle |
| BoundingBoxEditor.ScaledBox | frontend/src/components/BoundingBoxEditor.jsx:32-53 | a transform's box is the rectangle with its size scaled |
| BoundingBoxEditor.NamedClassesColoured | frontend/src/components/BoundingBoxEditor.jsx:81-91 | a label is drawn grey exactly when it is not person, cup, table, chair or laptop (`default` itself included) |
| BoundingBoxEditor.RuleObjectsColour | frontend/src/components/BoundingBoxEditor.jsx:81-91 | of the objects the rule classifier reacts to, only cup and table get a colour of their own |
| BoundingBoxEditor.BoundBox | frontend/src/components/BoundingBoxEditor.jsx:160-165 | a resize is accepted exactly when both sides are at least 20, else the old box stays |
| BoundingBoxEditor.BoundBoxKeepsMinimum | frontend/src/components/BoundingBoxEditor.jsx:160-165 | starting from at least 20 by 20, any sequence of resizes keeps both sides at least 20 |
| BoundingBoxEditor.WithBox | frontend/src/components/BoundingBoxEditor.jsx:17-27 | the copied list has a fresh object at the index with the new box and shares all others |
| BoundingBoxEditor.Editor.SelectBox | frontend/src/components/BoundingBoxEditor.jsx:11-13 | the clicked box becomes selected |
| BoundingBoxEditor.Editor.TransformStart | frontend/src/components/BoundingBoxEditor.jsx:123 | a transform is in progress |
| BoundingBoxEditor.Editor.BoxDragEnd | frontend/src/components/BoundingBoxEditor.jsx:15-30 | the dragged object gets the rectangle's box; every other object is unchanged |
| BoundingBoxEditor.Editor.TransformEnd | frontend/src/components/BoundingBoxEditor.jsx:32-53 | the object gets the scaled box, the node's scale is reset to 1 and the transform ends |
| BoundingBoxEditor.Editor.AddBox | frontend/src/components/BoundingBoxEditor.jsx:55-65 | a default new object is appended and selected; the others are unchanged |
| BoundingBoxEditor.Editor.DeleteBox | frontend/src/components/BoundingBoxEditor.jsx:67-73 | with a selection, sends the list without the selected object and clears the selection; otherwise does nothing |
| BoundingBoxEditor.Editor.LabelChange | frontend/src/components/BoundingBoxEditor.jsx:75-79 | the object's label is changed in place (the same list is sent back); objects that are not the same object are unchanged |
| CanvasOverlay.FitScale | frontend/src/components/CanvasOverlay.jsx:39-43 | the smaller of the two axis ratios, so the assumed 640×480 frame fits the canvas |
| CanvasOverlay.FirstHit | frontend/src/components/CanvasOverlay.jsx:133-136 | no hit exactly when no keypoint is within 10 pixels, else the first such keypoint in key order |
| CanvasOverlay.FirstHitNotNearest | frontend/src/components/CanvasOverlay.jsx:133-136 | the first hit need not be the nearest keypoint |
| CanvasOverlay.SkeletonDrawn | frontend/src/components/CanvasOverlay.jsx:49-50 | only the pose tool with a pose draws, exactly the connections whose endpoints are present |
| CanvasOverlay.Indicator | frontend/src/components/CanvasOverlay.jsx:111-124 | only the actions tool shows an indicator; none exactly when no action is active, else the earliest active one |
| CanvasOverlay.MovedPose | frontend/src/components/CanvasOverlay.jsx:152-158 | the dragged keypoint moves to the pointer with no z; other keypoints and the confidence stay |
| CanvasOverlay.DragTouchesOne | frontend/src/components/CanvasOverlay.jsx:152-158 | assigning one keypoint changes no other keypoint |
| CanvasOverlay.Overlay.Resize | frontend/src/components/CanvasOverlay.jsx:39-43 | the scale becomes the fitting scale |
| CanvasOverlay.Overlay.MouseDown | frontend/src/components/CanvasOverlay.jsx:126-143 | a drag starts exactly when the pose tool is active and a keypoint is hit, targeting the first one hit |
| CanvasOverlay.Overlay.MouseMove | frontend/src/components/CanvasOverlay.jsx:145-162 | an edit is sent exactly while dragging a target with a pose, for the current frame's key, with the moved pose |
| CanvasOverlay.Overlay.MouseUp | frontend/src/components/CanvasOverlay.jsx:164-167 | the drag ends and the target is cleared |
| PoseOverlay.SegmentOf | frontend/src/components/PoseOverlay.jsx:54-57 | a connection's line runs between its two keypoints |
| PoseOverlay.ConnectionPoints | frontend/src/components/PoseOverlay.jsx:47-64 | one line per connection whose endpoints are present, in table order |
| PoseOverlay.Render | frontend/src/components/PoseOverlay.jsx:20-22 | nothing without frame data; otherwise the lines of the drawn connections |
| PoseOverlay.DepthOrZero | frontend/src/components/PoseOverlay.jsx:40 | `z \|\| 0`: the depth unless missing or 0 |
| PoseOverlay.DraggedKeypoints | frontend/src/components/PoseOverlay.jsx:38-41 | the dragged keypoint moves to the drop point keeping its depth; other keypoints and the key order are unchanged |
| PoseOverlay.Overlay.DragStart | frontend/src/components/PoseOverlay.jsx:29-32 | the keypoint is selected and dragging starts |
| PoseOverlay.Overlay.DragEnd | frontend/src/components/PoseOverlay.jsx:34-45 | the moved keypoints are sent and dragging ends |
| VideoViewer.Viewer.SyncToFrame | frontend/src/components/VideoViewer.jsx:11-18 | the video seeks to the frame's start only when more than 0.1 s away; afterwards it is within 0.1 s |
| VideoViewer.Viewer.TimeUpdate | frontend/src/components/VideoViewer.jsx:20-27 | while paused, a frame is reported exactly when the video's one-based frame differs from the current one |
| VideoViewer.Viewer.LoadedMetadata | frontend/src/components/VideoViewer.jsx:29-33 | the duration is recorded |
| VideoViewer.Viewer.TogglePlayPause | frontend/src/components/VideoViewer.jsx:35-44 | play and pause alternate |
| VideoViewer.SeekThenUpdate | frontend/src/components/VideoViewer.jsx:13-24 | a seek caused by a frame change reports no frame back |
| VideoPlayer.MinutesSeconds | frontend/src/components/VideoPlayer.jsx:55-57 | for `t >= 0`, whole minutes and seconds `< 60` whose total is the whole seconds of `t` |
| VideoPlayer.FormatTimeReadsBack | frontend/src/components/VideoPlayer.jsx:55-59 | the `m:ss` text reads back as the minutes and seconds of `t` |
| VideoPlayer.Player.TimeUpdate | frontend/src/components/VideoPlayer.jsx:12-16 | the time is recorded and the reported frame is its one-based frame |
| VideoPlayer.Player.LoadedMetadata | frontend/src/components/VideoPlayer.jsx:18-20 | the duration is recorded |
| VideoPlayer.Player.Seek | frontend/src/components/VideoPlayer.jsx:43-53 | seeks to that fraction of the duration, within the clip for a fraction in `[0, 1]` |
| VideoPlayer.Player.PlayPause | frontend/src/components/VideoPlayer.jsx:32-41 | the playing state is toggled |
| UploadPage.FirstFile | frontend/src/pages/UploadPage.jsx:28-31 | `find`: nothing exactly when no file is accepted, else the first accepted file |
| UploadPage.BackendAcceptedPassesDrop | frontend/src/pages/UploadPage.jsx:28-31 | every name the backend accepts also passes the page's drop check |
| UploadPage.DropLooserThanBackend | frontend/src/pages/UploadPage.jsx:28-31 | a `video/*` file with another extension passes the drop check yet is refused by the backend |
| UploadPage.PollDecision | frontend/src/pages/UploadPage.jsx:65-80 | navigate exactly on `completed`; stop exactly on a status starting with `error`; otherwise poll again |
| UploadPage.PollAgreesWithBackend | frontend/src/pages/UploadPage.jsx:65-80 | on the statuses the backend produces, polling continues exactly for `queued` and `processing` |
| UploadPage.Page.Drop | frontend/src/pages/UploadPage.jsx:23-38 | uploads the first acceptable file, or shows the error when none is acceptable |
| UploadPage.Page.BeginUpload | frontend/src/pages/UploadPage.jsx:47-50 | uploading, no error, the uploading message |
| UploadPage.Page.UploadFinished | frontend/src/pages/UploadPage.jsx:56-58 | on success processing starts with its message; on failure the upload error shows |
| UploadPage.Page.StatusChecked | frontend/src/pages/UploadPage.jsx:65-80 | follows the poll decision: complete message, error with the status, or keep waiting |
| VideoUpload.UpperCaseExtensionRefused | frontend/src/components/VideoUpload.jsx:24-27 | `clip.MP4` is refused by the component though the page and the backend accept it |
| VideoUpload.AsWrittenAlwaysUnprocessable | frontend/src/components/VideoUpload.jsx:47-48 | as written, the form's only field is `file`, which the upload route rejects with 422 for every file |
| VideoUpload.UploadForm | frontend/src/services/api.js:15 | the corrected form carries the file under `video`, which the route reads back |
| VideoUpload.Component.Drop | frontend/src/components/VideoUpload.jsx:19-34 | uploads the first file the component accepts, or shows its error |
| VideoUpload.Component.BeginUpload | frontend/src/components/VideoUpload.jsx:43-48 | uploading, no error, and the form as written, with the file under `file`, which the route refuses with 422 |
| VideoUpload.Component.UploadFinished | frontend/src/components/VideoUpload.jsx:56-63 | the id is passed on when the upload succeeded, otherwise the error shows; uploading ends either way |
| VideoUpload.UploadAsWritten | frontend/src/components/VideoUpload.jsx:43-64 | as written, every upload through the route fails: the error shows, no id is passed on and no video is queued |
| VideoUpload.UploadThrough | frontend/src/components/VideoUpload.jsx:43-64 | with the form corrected to `video`, a file is uploaded exactly when the backend accepts its name, and it is then queued |
| ExportPage.DownloadTarget | frontend/src/pages/ExportPage.jsx:36-48 | a download exactly for json, csv or yaml, named and typed as the backend names it |
| ExportPage.Page.constructor | frontend/src/pages/ExportPage.jsx:8-11 | no summary, loading, not exporting, JSON selected |
| ExportPage.Page.SummaryLoaded | frontend/src/pages/ExportPage.jsx:17-26 | loading ends; the summary is kept only when it arrived |
| ExportPage.Page.SelectFormat | frontend/src/pages/ExportPage.jsx:129-153 | the selected format is recorded |
| ExportPage.Page.ExportFinished | frontend/src/pages/ExportPage.jsx:28-64 | exporting ends; success exactly when data arrived, then the download target of the selected format |
| ExportPage.ExportThrough | frontend/src/pages/ExportPage.jsx:28-64 | through the backend, a successful export is a supported format saved under the backend's file name and type |

## Left out

- HTTP transport, file I/O, `json`/`yaml`/pandas serialisation text, the CSV and YAML byte layout: the exports are modelled as row and entry sequences, not as text.
- The ML wrappers (`pose.py`, `objects.py`, their mocks) and OpenCV video reading: frames, poses and detections are parameters of the pipeline.
- The video-open failure of `process_video` and `_save_results` writing the results to disk: not modelled. The results are the processor's fields.
- `get_video_file` (streams the raw video file): pure I/O.
- FastAPI background tasks, asyncio and React's asynchronous state updates: each handler is a method, and the server reply is a parameter.
- `setTimeout` delays in polling and navigation, `alert`, `console` and the `Blob`/anchor download mechanics: the decisions are modelled, not the side effects.
- `generateRealisticAnnotations` (`CleanAnnotatePage.jsx` 181-238): the fixed demonstration data (90 frames computed with `Math.sin`) that the page shows when loading fails or every backend section is empty. Neither it nor the load's choice between it and the backend data is modelled; the converters the load applies to backend data are.
- IEEE floating point and `toFixed`: reals are exact. The random action confidences (`0.85 ± 0.1` in `actions.py`) are a fixed 0.85.
- Python `int()` accepts whitespace and underscores around digits; the model parses an optional minus sign and ASCII digits only.
- `str.lower()` and `toLowerCase()` are ASCII-only in the model.
- Pathlib handling of trailing slashes and of `..` in upload names.
- JavaScript objects inherit prototype keys (`constructor`, `toString`); the colour lookups treat only listed keys as present.
- The timeline's pixel width, and the canvas pointer division by a zero scale (NaN): positions are fractions of the bar, and scales are taken as given.
- Non-array object frames and falsy keypoint objects in the front-end converters: backend data always has arrays and objects there.
- The `if pose:` guard in `actions.py` line 38: every stored pose is a non-empty dict, so the guard always passes.
- BoundingBoxEditor.Editor.BoxDragEnd, BoundingBoxEditor.Editor.TransformEnd: require the index to be in range. The handlers are bound per rendered box from `objects.map`, so no other index reaches them; an index past the end would store a box-only object there.
- BoundingBoxEditor.Editor.LabelChange: requires the index to be in range, which the `objects.map` binding guarantees; an index past the end would raise a TypeError.
- VideoUpload.UploadThrough: models the upload with the form corrected to `video`; the component as written is UploadAsWritten, which never succeeds.
- PoseOverlay.DraggedKeypoints: requires the dragged keypoint to exist; the source would raise on a missing one.
- PoseOverlay.Overlay.DragEnd: requires the dragged keypoint to exist, as DraggedKeypoints does.
- Recognizer.AnalyzeMovements: states only which keypoints each movement flag needs and that the analysis reads only the first and last pose, not every threshold comparison.
- Recognizer.VideoProcessor.Process: the total frame count is a parameter; the OpenCV property read is not modelled.
- Segments: the grouping is stated for strictly increasing frame observations, which both callers produce.
- The CSS class strings of the colour tables are kept; the visual layout and animation are not modelled.

## Findings

| source | as written | input that shows it | evidently intended | confidence | as-written member | corrected member |
|---|---|---|---|---|---|---|
| backend/routes/annotations.py:45-56 | `json.dump` is given pydantic models after the file was opened for writing, which raises, so the file is left truncated and the request fails with 500; this happens for any pose section and for an object section with at least one detection | a bulk save with one valid pose frame | the sections are converted to plain data first, so the files are written and the saved sections reported | not executed | AnnotationStore.SaveAsWrittenLosesPose | AnnotationStore.VideoData.SaveAnnotations |
| frontend/src/pages/CleanAnnotatePage.jsx:575-577, 689-693 | the active-action tests read `action.start` and `action.end`, which backend actions do not have, so no action is ever shown and "Current" always reads `none` | a `walk` action over frames 0–10 at frame 5 | test `start_frame <= frame <= end_frame` | not executed | CleanAnnotate.ActiveWalkNotShown | CleanAnnotate.ShownIffActive |
| frontend/src/components/VideoUpload.jsx:47-48 | the file is posted under the form field `file`, but the upload route reads the field `video`, so every upload is rejected with 422 | any file, e.g. `clip.mp4` | post under `video`, as `services/api.js` does | not executed | VideoUpload.AsWrittenAlwaysUnprocessable | VideoUpload.UploadForm |
