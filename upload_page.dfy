// The upload page: which dropped file it takes, the flags and messages of an upload, and
// one step of the status polling that follows it. The requests and timers are not modelled:
// each response is a parameter, and a poll step returns what the page does next.
module UploadPage {
  import opened Wrappers
  import opened Text
  import Upload

  const DropExtensions: seq<string> := [".mp4", ".avi", ".mov"]
  const NoVideoMessage := "Please upload a valid video file (MP4, AVI, or MOV)"
  const UploadFailedMessage := "Failed to upload video. Please try again."
  const UploadingProgress := "Uploading video..."
  const ProcessingProgress := "Processing video with AI models..."
  const CompleteProgress := "Processing complete!"

  /** A dropped file: its name and its MIME type (empty when the browser does not know it). */
  datatype FileInfo = FileInfo(name: string, mimeType: string)

  /** File `i` is accepted and no earlier file is. */
  predicate FirstAccepted(files: seq<FileInfo>, i: int, accept: FileInfo -> bool)
  {
    0 <= i < |files| && accept(files[i]) && forall j :: 0 <= j < i ==> !accept(files[j])
  }

  /** The first file the predicate accepts (`files.find(...)`). */
  function FirstFile(files: seq<FileInfo>, accept: FileInfo -> bool): (r: Option<FileInfo>)
    ensures r.None? <==> forall i :: 0 <= i < |files| ==> !accept(files[i])
    ensures r.Some? ==> exists i :: FirstAccepted(files, i, accept) && files[i] == r.value
  {
    if files == [] then None
    else if accept(files[0]) then Some(files[0])
    else
      var r := FirstFile(files[1..], accept);
      assert forall i :: 1 <= i < |files| ==> files[i] == files[1..][i - 1];
      if r.Some? then
        var i :| FirstAccepted(files[1..], i, accept) && files[1..][i] == r.value;
        assert FirstAccepted(files, i + 1, accept);
        r
      else r
  }

  /** The page's drop check: a video MIME type, or a name ending in an allowed extension in any case. */
  predicate PageAccepts(f: FileInfo)
  {
    StartsWith(f.mimeType, "video/") || exists e :: e in DropExtensions && EndsWith(Lower(f.name), e)
  }

  /** Every name the upload route accepts passes the page's drop check, whatever its type. */
  lemma BackendAcceptedPassesDrop(f: FileInfo)
    requires Upload.Accepted(f.name)
    ensures PageAccepts(f)
  {
    Upload.AcceptedEndsWithAllowed(f.name);
  }

  /**
   * The converse fails: a file the browser types as video but whose extension is not allowed
   * (`clip.webm`, `video/webm`) passes the drop check and is then refused by the route.
   */
  lemma DropLooserThanBackend(stem: string, ext: string, subtype: string)
    requires |stem| > 0 && '/' !in stem + ext
    requires |ext| >= 2 && ext[0] == '.' && '.' !in ext[1..]
    requires Lower(ext) !in Upload.Allowed
    ensures PageAccepts(FileInfo(stem + ext, "video/" + subtype))
    ensures !Upload.Accepted(stem + ext)
  {
    Upload.AcceptedByLastExtension(stem, ext);
    assert ("video/" + subtype)[..6] == "video/";
  }

  /** What the page does after one status response. */
  datatype PollStep = Navigate(path: string) | Stop | PollAgain

  /**
   * `checkStatus`: completed goes to the annotate page, a status starting with "error" stops,
   * anything else, and a failed request, polls again.
   */
  function PollDecision(videoId: string, status: Option<string>): (step: PollStep)
    ensures step.Navigate? <==> status == Some("completed")
    ensures step.Navigate? ==> step.path == "/annotate/" + videoId
    ensures step.Stop? <==> status.Some? && status.value != "completed" && StartsWith(status.value, "error")
  {
    if status.None? then PollAgain
    else if status.value == "completed" then Navigate("/annotate/" + videoId)
    else if StartsWith(status.value, "error") then Stop
    else PollAgain
  }

  /**
   * Against the statuses the backend records: the page navigates exactly on completion,
   * stops exactly on a processing error, and keeps polling while queued or processing.
   */
  lemma PollAgreesWithBackend(videoId: string, s: string)
    requires Upload.KnownStatus(s)
    ensures PollDecision(videoId, Some(s)).Navigate? <==> s == "completed"
    ensures PollDecision(videoId, Some(s)).Stop? <==> StartsWith(s, "error: ")
    ensures PollDecision(videoId, Some(s)) == PollAgain <==> s == "queued" || s == "processing"
  {
    if StartsWith(s, "error: ") {
      assert s[..5] == s[..7][..5] == "error";
    }
    assert "queued"[..5][0] == 'q' && "processing"[..5][0] == 'p' && "completed"[..7][0] == 'c';
  }

  class Page {
    var dragging: bool
    var uploading: bool
    var processing: bool
    var error: Option<string>
    var progress: string

    constructor ()
      ensures !dragging && !uploading && !processing && error.None? && progress == ""
    {
      dragging := false;
      uploading := false;
      processing := false;
      error := None;
      progress := "";
    }

    method DragOver()
      modifies this`dragging
      ensures dragging
    {
      dragging := true;
    }

    method DragLeave()
      modifies this`dragging
      ensures !dragging
    {
      dragging := false;
    }

    /** `handleDrop`: the first acceptable file is uploaded; with none, the error is shown. */
    method Drop(files: seq<FileInfo>) returns (chosen: Option<FileInfo>)
      modifies this`dragging, this`error
      ensures !dragging
      ensures chosen == FirstFile(files, PageAccepts)
      ensures chosen.None? ==> error == Some(NoVideoMessage)
      ensures chosen.Some? ==> error == old(error)
    {
      dragging := false;
      chosen := FirstFile(files, PageAccepts);
      if chosen.None? {
        error := Some(NoVideoMessage);
      }
    }

    /** The start of `handleUpload`. */
    method BeginUpload()
      modifies this`uploading, this`error, this`progress
      ensures uploading && error.None? && progress == UploadingProgress
    {
      uploading := true;
      error := None;
      progress := UploadingProgress;
    }

    /**
     * The upload's response: an id starts processing; a failure shows the error and clears
     * both flags.
     */
    method UploadFinished(videoId: Option<string>)
      modifies this`uploading, this`processing, this`error, this`progress
      ensures !uploading
      ensures videoId.Some? ==> processing && progress == ProcessingProgress && error == old(error)
      ensures videoId.None? ==> !processing && error == Some(UploadFailedMessage) && progress == old(progress)
    {
      uploading := false;
      if videoId.Some? {
        processing := true;
        progress := ProcessingProgress;
      } else {
        error := Some(UploadFailedMessage);
        processing := false;
      }
    }

    /** One status response (`None` for a failed request) and what the page does next. */
    method StatusChecked(videoId: string, status: Option<string>) returns (step: PollStep)
      modifies this`processing, this`error, this`progress
      ensures step == PollDecision(videoId, status)
      ensures step.Navigate? ==> progress == CompleteProgress && processing == old(processing) && error == old(error)
      ensures step.Stop? ==> !processing && error == Some("Processing error: " + status.value) && progress == old(progress)
      ensures step.PollAgain? ==> processing == old(processing) && error == old(error) && progress == old(progress)
    {
      step := PollDecision(videoId, status);
      match step {
        case Navigate(_) =>
          progress := CompleteProgress;
        case Stop =>
          error := Some("Processing error: " + status.value);
          processing := false;
        case PollAgain =>
      }
    }
  }
}
