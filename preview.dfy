/** The preview controller (backend/src/controllers/previewcontroller.js):
    an exact-match table from MIME type to preview kind, and the two guarded
    reads built on it. Nothing is changed. */
module Preview {
  import opened Common
  import opened Rows
  import opened Files

  /** `previewTypes`: fourteen MIME types and their kinds. */
  const PreviewTable: map<string, Kind> := map[
    "image/jpeg" := Image, "image/png" := Image, "image/gif" := Image, "image/webp" := Image,
    "application/pdf" := Pdf,
    "text/plain" := Text, "text/html" := Text, "text/css" := Text, "text/javascript" := Text,
    "application/json" := Text,
    "video/mp4" := Video, "video/webm" := Video,
    "audio/mpeg" := Audio, "audio/wav" := Audio]

  /** `previewTypes[mimeType] || 'none'`, with `None` for 'none'. */
  function PreviewType(mime: string): (k: Option<Kind>)
    ensures k.Some? <==> mime in PreviewTable
    ensures k.Some? ==> k.value == PreviewTable[mime]
  {
    if mime in PreviewTable then Some(PreviewTable[mime]) else None
  }

  /** For every listed type the table agrees with the prefix rules of the
      file controller's getPreviewInfo; the prefix rules reach further: an
      SVG image is an image there and has no preview here. */
  lemma AgreesWithFileController(mime: string)
    ensures mime in PreviewTable ==> PreviewType(mime) == PreviewCategory(mime)
    ensures PreviewCategory("image/svg+xml") == Some(Image) && PreviewType("image/svg+xml") == None
  {
    assert StartsWith("image/svg+xml", "image/");
    if mime in PreviewTable {
      PreviewCategoryExact(mime);
      if PreviewTable[mime] == Image {
        assert StartsWith(mime, "image/");
      } else if PreviewTable[mime] == Video {
        assert StartsWith(mime, "video/");
      } else if PreviewTable[mime] == Audio {
        assert StartsWith(mime, "audio/");
      } else if PreviewTable[mime] == Text {
        assert TextLike(mime);
      }
    }
  }

  /** The body of getPreviewInfo: the stored name, not the user-visible one. */
  datatype Info = Info(id: Id, name: string, mimeType: string, size: nat, previewType: Option<Kind>, canPreview: bool)

  /** getPreviewInfo: any file of the caller, trashed or not; `canPreview`
      is true exactly when the table lists the type. */
  function GetPreviewInfo(G: map<Id, File>, userId: Id, id: Id): (r: Option<Info>)
    ensures r.None? <==> !OwnedFile(G, id, userId)
    ensures r.Some? ==>
      && r.value.previewType == PreviewType(G[id].mimeType)
      && (r.value.canPreview <==> G[id].mimeType in PreviewTable)
      && r.value.name == G[id].name && r.value.size == G[id].size && r.value.id == id
      && r.value.mimeType == G[id].mimeType
  {
    if !OwnedFile(G, id, userId) then None
    else
      var f := G[id];
      var k := PreviewType(f.mimeType);
      Some(Info(id, f.name, f.mimeType, f.size, k, k != None))
  }

  /** What getPreview sends: the headers and the blob to stream. */
  datatype Stream = Stream(contentType: string, disposition: string, path: string)

  /** getPreview: a file of the caller whose blob is on disk is streamed
      inline under its stored name; otherwise not found, before any header. */
  function GetPreview(G: map<Id, File>, blobs: set<string>, userId: Id, id: Id): (r: Option<Stream>)
    ensures r.Some? <==> OwnedFile(G, id, userId) && G[id].path in blobs
    ensures r.Some? ==>
      && r.value.path == G[id].path && r.value.path in blobs
      && r.value.contentType == G[id].mimeType
      && r.value.disposition == "inline; filename=\"" + G[id].name + "\""
  {
    if !OwnedFile(G, id, userId) || G[id].path !in blobs then None
    else Some(Stream(G[id].mimeType, "inline; filename=\"" + G[id].name + "\"", G[id].path))
  }

  /** A file that can be streamed also has preview information. */
  lemma PreviewNeedsInfo(G: map<Id, File>, blobs: set<string>, userId: Id, id: Id)
    ensures GetPreview(G, blobs, userId, id).Some? ==> GetPreviewInfo(G, userId, id).Some?
    ensures GetPreviewInfo(G, userId, id).Some? && G[id].path in blobs ==> GetPreview(G, blobs, userId, id).Some?
  {
  }
}
