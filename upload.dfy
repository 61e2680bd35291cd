// The upload routes: file-type validation, the module-global processing-status dictionary
// and the queries on it. The uploaded bytes, the uuid generation and the background task
// runner are not modelled: the id and the outcome of processing are parameters.
module Upload {
  import opened Wrappers
  import opened Text
  import Dict
  import opened AnnotationStore

  const Allowed: seq<string> := [".mp4", ".avi", ".mov"]
  const InvalidType := HttpError(400, "Invalid file type. Allowed: .mp4, .avi, .mov")
  const VideoNotFound := HttpError(404, "Video not found")
  const DataNotFound := HttpError(404, "Video data not found")
  const UploadMessage := "Video uploaded successfully. Processing started."
  /** The multipart field the upload route reads the file from. */
  const UploadField := "video"

  /** The final path component: the text after the last '/'. */
  function BaseName(path: string): (r: string)
    ensures '/' !in r && EndsWith(path, r)
    ensures |r| < |path| ==> path[|path| - |r| - 1] == '/'
  {
    if path == [] then []
    else if path[|path| - 1] == '/' then []
    else BaseName(path[..|path| - 1]) + [path[|path| - 1]]
  }

  /** The index of the last '.' of a string. */
  function LastDot(s: string): (r: Option<nat>)
    ensures r.None? <==> '.' !in s
    ensures r.Some? ==> r.value < |s| && s[r.value] == '.' && '.' !in s[r.value + 1..]
  {
    if s == [] then None
    else if s[|s| - 1] == '.' then Some(|s| - 1)
    else LastDot(s[..|s| - 1])
  }

  /**
   * `Path(filename).suffix`: from the last '.' of the final component, provided that dot is
   * neither the component's first nor its last character; otherwise empty.
   */
  function Suffix(filename: string): (r: string)
    ensures r == [] || (|r| >= 2 && r[0] == '.' && '.' !in r[1..] && '/' !in r && EndsWith(filename, r))
  {
    var name := BaseName(filename);
    var dot := LastDot(name);
    if dot.Some? && 0 < dot.value < |name| - 1 then
      assert EndsWith(name, name[dot.value..]);
      name[dot.value..]
    else []
  }

  /** The upload's file type check: the lower-cased suffix is one of the allowed extensions. */
  predicate Accepted(filename: string)
  {
    Lower(Suffix(filename)) in Allowed
  }

  /** An accepted name ends, ignoring case, in an allowed extension. */
  lemma AcceptedEndsWithAllowed(filename: string)
    requires Accepted(filename)
    ensures exists e :: e in Allowed && EndsWith(Lower(filename), e)
  {
    var sfx := Suffix(filename);
    LowerOfSuffix(filename, sfx);
    assert EndsWith(Lower(filename), Lower(sfx));
  }

  /**
   * For a name made of a non-empty stem and a final extension, the check looks at that
   * extension alone, in any case: `clip.MP4` is accepted and `clip.mp4.zip` is not.
   */
  lemma {:induction false} AcceptedByLastExtension(stem: string, ext: string)
    requires |stem| > 0 && '/' !in stem + ext
    requires |ext| >= 2 && ext[0] == '.' && '.' !in ext[1..]
    ensures Suffix(stem + ext) == ext
    ensures Accepted(stem + ext) <==> Lower(ext) in Allowed
  {
    var f := stem + ext;
    NoSlashBaseName(f);
    LastDotAfter(stem, ext);
    assert f[|stem|..] == ext;
  }

  /** A string without '/' is its own final component. */
  lemma {:induction false} NoSlashBaseName(s: string)
    requires '/' !in s
    ensures BaseName(s) == s
  {
    if s != [] {
      assert forall i :: 0 <= i < |s| - 1 ==> s[..|s| - 1][i] == s[i];
      NoSlashBaseName(s[..|s| - 1]);
      assert s[..|s| - 1] + [s[|s| - 1]] == s;
    }
  }

  /** The last dot of `stem + ext` is the first character of `ext` when no other dot follows. */
  lemma {:induction false} LastDotAfter(stem: string, ext: string)
    requires |ext| > 0 && ext[0] == '.' && '.' !in ext[1..]
    ensures LastDot(stem + ext) == Some(|stem|)
    decreases |ext|
  {
    var f := stem + ext;
    if |ext| == 1 {
      assert f[|f| - 1] == '.';
    } else {
      assert f[|f| - 1] == ext[|ext| - 1];
      assert ext[|ext| - 1] in ext[1..];
      assert f[..|f| - 1] == stem + ext[..|ext| - 1];
      assert ext[..|ext| - 1][1..] == ext[1..|ext| - 1];
      assert forall i :: 1 <= i < |ext| - 1 ==> ext[1..|ext| - 1][i - 1] == ext[i] && ext[1..][i - 1] == ext[i];
      LastDotAfter(stem, ext[..|ext| - 1]);
    }
  }

  /** A hidden file named only by an extension, such as `.mp4`, has no suffix and is rejected. */
  lemma HiddenFileRejected(ext: string)
    requires |ext| >= 1 && ext[0] == '.' && '.' !in ext[1..] && '/' !in ext
    ensures Suffix(ext) == [] && !Accepted(ext)
  {
    NoSlashBaseName(ext);
    LastDotAfter([], ext);
    assert [] + ext == ext;
    assert Lower([]) == [];
  }

  /**
   * The route's required `video` file parameter: the file name sent under that field, or a
   * 422 when the form has no such field. A form is modelled as field name -> file name.
   */
  function FormVideo(form: Dict.Dict<string>): (r: Result<string, HttpError>)
    ensures r.Ok? <==> Dict.HasKey(form, UploadField)
    ensures r.Ok? ==> Dict.Get(form, UploadField) == Some(r.value)
    ensures r.Err? ==> r.error == Unprocessable
  {
    var f := Dict.Get(form, UploadField);
    if f.Some? then Ok(f.value) else Err(Unprocessable)
  }

  /** Every status the dictionary can hold. */
  predicate KnownStatus(s: string)
  {
    s == "queued" || s == "processing" || s == "completed" || StartsWith(s, "error: ")
  }

  /** The status a finished processing run records: completed, or the exception's message. */
  function Outcome(failure: Option<string>): (s: string)
    ensures KnownStatus(s)
    ensures s == "completed" <==> failure.None?
    ensures failure.Some? ==> StartsWith(s, "error: ") && s[|"error: "|..] == failure.value
  {
    if failure.None? then "completed"
    else
      var s := "error: " + failure.value;
      assert s[..7] == "error: " && s[0] != "completed"[0];
      s
  }

  /** Recording a known status keeps every entry of the dictionary known. */
  lemma PutKnown(status: map<string, string>, videoId: string, s: string)
    requires AllKnown(status) && KnownStatus(s)
    ensures AllKnown(status[videoId := s])
  {
  }

  predicate AllKnown(status: map<string, string>)
  {
    forall id :: id in status ==> KnownStatus(status[id])
  }

  datatype UploadReply = UploadReply(videoId: string, filename: string, status: string, message: string)
  datatype StatusReply = StatusReply(videoId: string, status: string)
  datatype VideoInfo = VideoInfo(videoId: string, hasPose: bool, hasObjects: bool, hasActions: bool,
                                 frameCount: nat, status: string)

  /** The backend's upload state: the processing-status dictionary and the saved videos. */
  class UploadService {
    var status: map<string, string>
    var videos: map<string, string>

    predicate Valid()
      reads this
    {
      AllKnown(status)
    }

    constructor()
      ensures status == map[] && videos == map[] && Valid()
    {
      status := map[];
      videos := map[];
    }

    /**
     * `POST /upload`: a rejected type is a 400 that records nothing; an accepted one is saved
     * under `uploads/<id><lower-cased suffix>` and queued.
     */
    method UploadVideo(filename: string, videoId: string) returns (r: Result<UploadReply, HttpError>)
      requires Valid()
      modifies this
      ensures Valid()
      ensures r.Ok? <==> Accepted(filename)
      ensures !Accepted(filename) ==> r == Err(InvalidType) && status == old(status) && videos == old(videos)
      ensures Accepted(filename) ==> r == Ok(UploadReply(videoId, filename, "queued", UploadMessage))
      ensures Accepted(filename) ==> (status == old(status)[videoId := "queued"] &&
        videos == old(videos)[videoId := "uploads/" + videoId + Lower(Suffix(filename))])
    {
      var fileExt := Lower(Suffix(filename));
      if !Accepted(filename) {
        return Err(InvalidType);
      }
      PutKnown(status, videoId, "queued");
      var videoPath := "uploads/" + videoId + fileExt;
      videos := videos[videoId := videoPath];
      status := status[videoId := "queued"];
      return Ok(UploadReply(videoId, filename, "queued", UploadMessage));
    }

    /** A whole upload request: the form's `video` file, then the upload itself. */
    method UploadRequest(form: Dict.Dict<string>, videoId: string) returns (r: Result<UploadReply, HttpError>)
      requires Valid()
      modifies this
      ensures Valid()
      ensures FormVideo(form).Err? ==> r == Err(Unprocessable) && status == old(status) && videos == old(videos)
      ensures FormVideo(form).Ok? ==> (r.Ok? <==> Accepted(FormVideo(form).value))
      ensures FormVideo(form).Ok? && Accepted(FormVideo(form).value) ==> status == old(status)[videoId := "queued"]
      ensures r.Ok? ==> r.value.videoId == videoId
    {
      var filename := FormVideo(form);
      if filename.Err? {
        return Err(filename.error);
      }
      r := UploadVideo(filename.value, videoId);
    }

    /**
     * The background processing task: "processing" first, then "completed" or the error
     * message of the exception that stopped it. Only the status entry of this id changes.
     */
    method ProcessVideo(videoId: string, failure: Option<string>)
      requires Valid()
      modifies this
      ensures Valid() && videos == old(videos)
      ensures status == old(status)[videoId := Outcome(failure)]
    {
      PutKnown(status, videoId, "processing");
      status := status[videoId := "processing"];
      if failure.Some? {
        PutKnown(status, videoId, Outcome(failure));
        status := status[videoId := "error: " + failure.value];
        return;
      }
      PutKnown(status, videoId, "completed");
      status := status[videoId := "completed"];
    }

    /** `GET /video/{id}/status`: 404 for an id never uploaded, the recorded status otherwise. */
    method GetProcessingStatus(videoId: string) returns (r: Result<StatusReply, HttpError>)
      requires Valid()
      ensures r.Err? <==> videoId !in status
      ensures r.Err? ==> r.error == VideoNotFound
      ensures r.Ok? ==> r.value.videoId == videoId && r.value.status == status[videoId] && KnownStatus(r.value.status)
    {
      if videoId !in status {
        return Err(VideoNotFound);
      }
      return Ok(StatusReply(videoId, status[videoId]));
    }

    /**
     * `GET /video/{id}/info`: 404 without the data directory; which files exist, the number
     * of pose frames, and the status or "unknown".
     */
    method GetVideoInfo(v: VideoData, videoId: string) returns (r: Result<VideoInfo, HttpError>)
      ensures !v.dirExists ==> r == Err(DataNotFound)
      ensures v.dirExists ==> (r.Err? <==> v.poseFile.Unreadable?)
      ensures r.Err? && v.dirExists ==> r.error == ServerError
      ensures r.Ok? ==> (r.value.videoId == videoId && r.value.hasPose == !v.poseFile.Absent? &&
        r.value.hasObjects == !v.objectsFile.Absent? && r.value.hasActions == !v.actionsFile.Absent?)
      ensures r.Ok? ==> r.value.frameCount == (if v.poseFile.Stored? then |v.poseFile.data| else 0)
      ensures r.Ok? ==> r.value.status == (if videoId in status then status[videoId] else "unknown")
    {
      if !v.dirExists {
        return Err(DataNotFound);
      }
      var hasPose := !v.poseFile.Absent?;
      var hasObjects := !v.objectsFile.Absent?;
      var hasActions := !v.actionsFile.Absent?;
      var frameCount := 0;
      if hasPose {
        if v.poseFile.Unreadable? {
          return Err(ServerError);
        }
        frameCount := |v.poseFile.data|;
      }
      var current := if videoId in status then status[videoId] else "unknown";
      return Ok(VideoInfo(videoId, hasPose, hasObjects, hasActions, frameCount, current));
    }
  }
}
