// The export page: the summary it loads, the format the user picks, and the file it saves
// the export reply under. Requests are parameters (the reply, or `None` when the request
// fails), except in `ExportThrough`, which takes the reply from the modelled export route.
module ExportPage {
  import opened Wrappers
  import AnnotationStore
  import Export

  /** The name and MIME type of the saved file. */
  datatype SaveTarget = SaveTarget(filename: string, mimeType: string)

  /**
   * The file name and type the page saves a reply under: `<id>_annotations.<format>` with the
   * format's type for the three formats; any other format sets neither.
   */
  function DownloadTarget(videoId: string, format: string): (t: Option<SaveTarget>)
    ensures t.Some? <==> format in Export.Formats
    ensures t.Some? ==> t.value.filename == Export.Filename(videoId, format)
    ensures t.Some? ==> t.value.mimeType == Export.MediaType(format)
  {
    if format == "json" then Some(SaveTarget(videoId + "_annotations.json", "application/json"))
    else if format == "csv" then Some(SaveTarget(videoId + "_annotations.csv", "text/csv"))
    else if format == "yaml" then Some(SaveTarget(videoId + "_annotations.yaml", "text/yaml"))
    else None
  }

  /** The three formats are saved under three different names. */
  lemma TargetsDistinct(videoId: string, f: string, g: string)
    requires f in Export.Formats && g in Export.Formats && f != g
    ensures DownloadTarget(videoId, f).value.filename != DownloadTarget(videoId, g).value.filename
  {
    var a := DownloadTarget(videoId, f).value.filename;
    var b := DownloadTarget(videoId, g).value.filename;
    var n := |videoId + "_annotations."|;
    assert a[n..] == f && b[n..] == g;
  }

  class Page {
    var videoId: string
    var summary: Option<Export.Summary>
    var loading: bool
    var exporting: bool
    var selectedFormat: string

    constructor (videoId: string)
      ensures this.videoId == videoId && summary.None? && loading && !exporting && selectedFormat == "json"
    {
      this.videoId := videoId;
      summary := None;
      loading := true;
      exporting := false;
      selectedFormat := "json";
    }

    /** `loadSummary`: a reply is kept; loading ends whether or not the request succeeded. */
    method SummaryLoaded(reply: Option<Export.Summary>)
      modifies this`summary, this`loading
      ensures !loading
      ensures summary == if reply.Some? then reply else old(summary)
    {
      if reply.Some? {
        summary := reply;
      }
      loading := false;
    }

    method SelectFormat(format: string)
      modifies this`selectedFormat
      ensures selectedFormat == format
    {
      selectedFormat := format;
    }

    method BeginExport()
      modifies this`exporting
      ensures exporting
    {
      exporting := true;
    }

    /**
     * The end of `handleExport`: a reply is saved under the selected format's target and
     * reported as a success, a failed request as a failure; the export is over either way.
     */
    method ExportFinished(reply: Option<Export.Body>) returns (saved: Option<SaveTarget>, succeeded: bool)
      modifies this`exporting
      ensures !exporting
      ensures succeeded <==> reply.Some?
      ensures saved == if reply.Some? then DownloadTarget(videoId, selectedFormat) else None
    {
      succeeded := reply.Some?;
      saved := if reply.Some? then DownloadTarget(videoId, selectedFormat) else None;
      exporting := false;
    }
  }

  /**
   * One export against the route: when the route replies, the page saves the file under the
   * very name and type the route announces for it.
   */
  method ExportThrough(page: Page, v: AnnotationStore.VideoData) returns (saved: Option<SaveTarget>, succeeded: bool)
    modifies page`exporting
    ensures !page.exporting
    ensures succeeded ==> saved.Some? && page.selectedFormat in Export.Formats
    ensures saved.Some? ==> (saved.value.filename == Export.Filename(page.videoId, page.selectedFormat) &&
      saved.value.mimeType == Export.MediaType(page.selectedFormat))
  {
    page.BeginExport();
    var r := Export.ExportAnnotations(v, page.videoId, page.selectedFormat);
    saved, succeeded := page.ExportFinished(if r.Ok? then Some(r.value.body) else None);
  }
}
