/** The upload box: it reads its value (the attachment reference as JSON text)
    into a url, a lower-cased type and a name, shows an image, PDF, audio or
    video preview with a remove button, or else the upload dropzone, whose
    completion writes the uploaded file's reference back as the value. */
module FileUpload {
  import opened Js
  import opened Json

  /** The three locals `file`, `fileType` and `fileName` after the try block. */
  datatype Fields = Fields(file: string, fileType: string, fileName: string)

  const NameLimit: nat := 50

  /** The defaults and lower-casing applied to a parsed object. */
  function ObjectFields(url: Option<string>, kind: Option<string>, name: Option<string>): Fields
  {
    var lowered := if kind.Some? then ToLowerCase(kind.value) else "";
    Fields(OrElse(url, ""), if lowered != "" then lowered else "Unknown", OrElse(name, "File Uploaded"))
  }

  /** The locals after reading `value`. On a parse error, or on `null` (reading
      `.url` of null throws), they keep their initial "". */
  function ReadValue(codec: Codec, value: string): Fields
  {
    if value == "" then Fields("", "", "")
    else match codec.parse(value)
      case None => Fields("", "", "")
      case Some(Null) => Fields("", "", "")
      case Some(Primitive) => ObjectFields(None, None, None)
      case Some(Object(url, kind, name)) => ObjectFields(url, kind, name)
  }

  /** `name.length > 50 ? name.slice(0, 50) + "..." : name` */
  function Truncate(name: string): (r: string)
    ensures |name| <= NameLimit ==> r == name
    ensures |name| > NameLimit ==> |r| == NameLimit + 3 && r[..NameLimit] == name[..NameLimit] && r[NameLimit..] == "..."
  {
    if |name| > NameLimit then name[..NameLimit] + "..." else name
  }

  /** What the box shows. Each preview carries what it renders: the image or
      media source (for a PDF, the link), the visible caption, the link title or
      the media element's type. */
  datatype Preview =
    | ImagePreview(src: string)
    | PdfPreview(src: string, caption: string, title: string)
    | AudioPreview(src: string, caption: string, mediaType: string)
    | VideoPreview(src: string, caption: string, mediaType: string)
    | Dropzone

  /** The if/return chain: image, then PDF, then audio, then video, each only
      with a non-empty url; otherwise the dropzone. */
  function RenderPreview(codec: Codec, value: string): Preview
  {
    var f := ReadValue(codec, value);
    if f.file != "" && Includes(f.fileType, "image") then ImagePreview(f.file)
    else if f.file != "" && Includes(f.fileType, "pdf") then PdfPreview(f.file, Truncate(f.fileName), f.fileName)
    else if f.file != "" && Includes(f.fileType, "audio") then
      AudioPreview(f.file, OrElse(Some(Truncate(f.fileName)), "Audio File"), f.fileType)
    else if f.file != "" && Includes(f.fileType, "video") then
      VideoPreview(f.file, OrElse(Some(Truncate(f.fileName)), "Audio File"), f.fileType)
    else Dropzone
  }

  /** The value every preview's remove button writes. */
  const Removed: string := ""

  /** One entry of the upload service's result list. */
  datatype UploadedFile = UploadedFile(url: string, kind: string, name: string)

  /** `onClientUploadComplete`: the text of `{url, type, name}` taken from the
      first result; None where `res[0]` is missing and the callback throws. */
  function UploadComplete(codec: Codec, res: seq<UploadedFile>): (value: Option<string>)
    ensures value.Some? <==> |res| > 0
  {
    if |res| == 0 then None
    else Some(codec.stringify(Attachment(res[0].url, res[0].kind, res[0].name)))
  }

  /** An empty value shows the dropzone. */
  lemma EmptyValueShowsDropzone(codec: Codec)
    ensures ReadValue(codec, "") == Fields("", "", "")
    ensures RenderPreview(codec, "") == Dropzone
  {
  }

  /** Every remove button returns the box to the dropzone. */
  lemma RemoveShowsDropzone(codec: Codec)
    ensures RenderPreview(codec, Removed) == Dropzone
  {
  }

  /** A value that does not parse leaves every local empty and shows the dropzone. */
  lemma UnparseableShowsDropzone(codec: Codec, value: string)
    requires codec.parse(value).None?
    ensures ReadValue(codec, value) == Fields("", "", "")
    ensures RenderPreview(codec, value) == Dropzone
  {
  }

  /** Without a url there is no preview, whatever the type. */
  lemma NoUrlShowsDropzone(codec: Codec, value: string)
    requires ReadValue(codec, value).file == ""
    ensures RenderPreview(codec, value) == Dropzone
  {
  }

  /** The defaults: a missing url reads as "", the type is lower-cased and a
      missing or empty one reads as "Unknown", a missing name as "File Uploaded". */
  lemma ObjectDefaults(codec: Codec, value: string, url: Option<string>, kind: Option<string>, name: Option<string>)
    requires value != "" && codec.parse(value) == Some(Object(url, kind, name))
    ensures var f := ReadValue(codec, value);
      && (!Truthy(url) ==> f.file == "") && (Truthy(url) ==> f.file == url.value)
      && (!Truthy(kind) ==> f.fileType == "Unknown")
      && (Truthy(kind) ==> f.fileType == ToLowerCase(kind.value) && IsLowerCase(f.fileType))
      && (!Truthy(name) ==> f.fileName == "File Uploaded") && (Truthy(name) ==> f.fileName == name.value)
  {
    if Truthy(kind) {
      ToLowerCaseIsLowerCase(kind.value);
    }
  }

  /** Preview precedence: with a url, the first keyword in the order image, pdf,
      audio, video that the type includes chooses the preview, so a type that
      includes several takes the earliest; a type including none shows the dropzone. */
  lemma PreviewPrecedence(codec: Codec, value: string)
    requires ReadValue(codec, value).file != ""
    ensures var f := ReadValue(codec, value); var p := RenderPreview(codec, value);
      && (p.ImagePreview? <==> Includes(f.fileType, "image"))
      && (p.PdfPreview? <==> !Includes(f.fileType, "image") && Includes(f.fileType, "pdf"))
      && (p.AudioPreview? <==> !Includes(f.fileType, "image") && !Includes(f.fileType, "pdf") && Includes(f.fileType, "audio"))
      && (p.VideoPreview? <==> !Includes(f.fileType, "image") && !Includes(f.fileType, "pdf")
                                && !Includes(f.fileType, "audio") && Includes(f.fileType, "video"))
      && (!p.Dropzone? ==> p.src == f.file)
  {
  }

  /** Every preview caption is non-empty and at most 53 characters long: the name
      defaults to "File Uploaded", so the "Audio File" fallback never shows. */
  lemma PreviewLabels(codec: Codec, value: string)
    ensures var p := RenderPreview(codec, value);
      (p.PdfPreview? || p.AudioPreview? || p.VideoPreview?) ==>
        && p.caption != "" && |p.caption| <= NameLimit + 3
        && p.caption == Truncate(ReadValue(codec, value).fileName)
  {
    var f := ReadValue(codec, value);
    var p := RenderPreview(codec, value);
    if p.PdfPreview? || p.AudioPreview? || p.VideoPreview? {
      assert f.file != "";
      assert f.fileName != "";
      assert Truncate(f.fileName) != "";
    }
  }

  /** Round trip: reading back the value written on upload completion gives the
      uploaded url and name and the lower-cased type, with the usual defaults. */
  lemma UploadRoundTrip(codec: Codec, res: seq<UploadedFile>)
    requires Lawful(codec) && |res| > 0
    ensures var value := UploadComplete(codec, res).value; var f := ReadValue(codec, value);
      && f.file == res[0].url
      && f.fileType == (if res[0].kind == "" then "Unknown" else ToLowerCase(res[0].kind))
      && f.fileName == (if res[0].name == "" then "File Uploaded" else res[0].name)
  {
    var v := Attachment(res[0].url, res[0].kind, res[0].name);
    assert codec.parse(codec.stringify(v)) == Some(v);
    StringifyNonEmpty(codec, v);
  }
}
