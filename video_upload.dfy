// The stand-alone upload component: its drop check, the form it posts, and its flags. Its
// message on a failed request is the upload page's. The request is a parameter (the reply's
// video id, or `None` when the request fails), except in `UploadAsWritten` and
// `UploadThrough`, which hand the component's form, or the corrected one, to the modelled
// upload route.
module VideoUpload {
  import opened Wrappers
  import opened Text
  import Dict
  import Upload
  import AnnotationStore
  import opened UploadPage

  const ComponentExtensions: seq<string> := [".mp4", ".avi", ".mov"]
  const ComponentNoVideoMessage := "Please upload a valid video file (mp4, avi, or mov)"

  /** The component's drop check: a video MIME type, or a name ending in an allowed extension, case-sensitively. */
  predicate ComponentAccepts(f: FileInfo)
  {
    StartsWith(f.mimeType, "video/") || exists e :: e in ComponentExtensions && EndsWith(f.name, e)
  }

  /**
   * A file with an upper-case extension and no MIME type (`CLIP.MP4`) is refused by the
   * component's drop, though the upload page's drop and the upload route both accept it.
   */
  lemma UpperCaseExtensionRefused(stem: string)
    requires |stem| > 0 && '/' !in stem && '.' !in stem
    ensures !ComponentAccepts(FileInfo(stem + ".MP4", ""))
    ensures PageAccepts(FileInfo(stem + ".MP4", ""))
    ensures Upload.Accepted(stem + ".MP4")
  {
    UpperCaseNotListed(stem + ".MP4", ".MP4");
    Upload.AcceptedByLastExtension(stem, ".MP4");
    LowerMp4();
    BackendAcceptedPassesDrop(FileInfo(stem + ".MP4", ""));
  }

  lemma LowerMp4()
    ensures Lower(".MP4") == ".mp4"
  {
    var l := Lower(".MP4");
    assert l[0] == '.' && l[1] == 'm' && l[2] == 'p' && l[3] == '4';
  }

  /** A name that ends in a four-character extension none of the listed ones equals. */
  lemma UpperCaseNotListed(name: string, ext: string)
    requires |ext| == 4 && EndsWith(name, ext) && ext !in ComponentExtensions
    ensures !ComponentAccepts(FileInfo(name, ""))
  {
    forall e | e in ComponentExtensions
      ensures !EndsWith(name, e)
    {
      assert |e| == 4;
    }
  }

  /** The form field the component puts the file under, as written. */
  const FieldAsWritten := "file"

  /** `formData.append('file', file)`: the form as written. */
  function FormAsWritten(filename: string): (form: Dict.Dict<string>)
    ensures Dict.Keys(form) == [FieldAsWritten]
  {
    [(FieldAsWritten, filename)]
  }

  /** The route finds no `video` field in that form: every upload is refused with 422. */
  lemma AsWrittenAlwaysUnprocessable(filename: string)
    ensures Upload.FormVideo(FormAsWritten(filename)) == Err(AnnotationStore.Unprocessable)
  {
    assert FieldAsWritten != Upload.UploadField;
    assert !Dict.HasKey(FormAsWritten(filename), Upload.UploadField);
  }

  /** The form with the field the route reads, as the shared upload client already sends it. */
  function UploadForm(filename: string): (form: Dict.Dict<string>)
    ensures Upload.FormVideo(form) == Ok(filename)
  {
    var form := [(Upload.UploadField, filename)];
    assert form[0].0 == Upload.UploadField;
    form
  }

  class Component {
    var dragging: bool
    var uploading: bool
    var error: Option<string>

    constructor ()
      ensures !dragging && !uploading && error.None?
    {
      dragging := false;
      uploading := false;
      error := None;
    }

    method DragOver()
      modifies this`dragging
      ensures dragging
    {
      dragging := true;
    }

    method DragLeave()
      modifies this`dragging
      ensures !dragging
    {
      dragging := false;
    }

    /** `handleDrop`: the first file the component accepts is uploaded; with none, the error is shown. */
    method Drop(files: seq<FileInfo>) returns (chosen: Option<FileInfo>)
      modifies this`dragging, this`error
      ensures !dragging
      ensures chosen == FirstFile(files, ComponentAccepts)
      ensures chosen.None? ==> error == Some(ComponentNoVideoMessage)
      ensures chosen.Some? ==> error == old(error)
    {
      dragging := false;
      chosen := FirstFile(files, ComponentAccepts);
      if chosen.None? {
        error := Some(ComponentNoVideoMessage);
      }
    }

    /**
     * The start of `uploadVideo` as written: uploading, no error, and a form whose only field
     * is `file`, which the upload route cannot read.
     */
    method BeginUpload(file: FileInfo) returns (form: Dict.Dict<string>)
      modifies this`uploading, this`error
      ensures uploading && error.None?
      ensures form == FormAsWritten(file.name)
      ensures Upload.FormVideo(form) == Err(AnnotationStore.Unprocessable)
    {
      uploading := true;
      error := None;
      form := FormAsWritten(file.name);
      AsWrittenAlwaysUnprocessable(file.name);
    }

    /**
     * The end of `uploadVideo`: a reply's id goes to `onVideoUploaded`; a failure shows the
     * error; either way the upload is over.
     */
    method UploadFinished(reply: Option<string>) returns (uploaded: Option<string>)
      modifies this`uploading, this`error
      ensures !uploading
      ensures uploaded == reply
      ensures reply.Some? ==> error == old(error)
      ensures reply.None? ==> error == Some(UploadPage.UploadFailedMessage)
    {
      if reply.Some? {
        uploaded := reply;
      } else {
        uploaded := None;
        error := Some(UploadPage.UploadFailedMessage);
      }
      uploading := false;
    }
  }

  /**
   * One upload from the component to the route as written: the route refuses the form with
   * 422 whatever the file, the component shows its error, the parent is never told of a
   * video, and the service's state is unchanged.
   */
  method UploadAsWritten(c: Component, service: Upload.UploadService, file: FileInfo, videoId: string)
    returns (uploaded: Option<string>)
    requires service.Valid()
    modifies c, service
    ensures service.Valid() && !c.uploading
    ensures uploaded.None? && c.error == Some(UploadPage.UploadFailedMessage)
    ensures service.status == old(service.status) && service.videos == old(service.videos)
  {
    var form := c.BeginUpload(file);
    var r := service.UploadRequest(form, videoId);
    // The route answers with the id it was given (`r.value.videoId == videoId`).
    var reply := if r.Ok? then Some(videoId) else None;
    uploaded := c.UploadFinished(reply);
  }

  /**
   * One upload with the corrected form: the component's flags are set as `uploadVideo` sets
   * them, but the file is posted under `video`. The parent is told the new id exactly when
   * the route accepts the file's name, and the video is then queued for processing.
   */
  method UploadThrough(c: Component, service: Upload.UploadService, file: FileInfo, videoId: string)
    returns (uploaded: Option<string>)
    requires service.Valid()
    modifies c, service
    ensures service.Valid() && !c.uploading
    ensures uploaded.Some? <==> Upload.Accepted(file.name)
    ensures uploaded.Some? ==> uploaded.value == videoId && service.status == old(service.status)[videoId := "queued"]
    ensures uploaded.None? ==> c.error == Some(UploadPage.UploadFailedMessage)
  {
    var _ := c.BeginUpload(file);
    var form := UploadForm(file.name);
    var r := service.UploadRequest(form, videoId);
    var reply := if r.Ok? then Some(r.value.videoId) else None;
    uploaded := c.UploadFinished(reply);
  }
}
