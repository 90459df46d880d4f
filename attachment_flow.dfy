/** How one attachment reference travels: written by the upload box on upload
    completion, checked by the attachment dialog's schema, posted to the
    message endpoint, and read back by the chat row and the upload box. */
module AttachmentFlow {
  import opened Js
  import opened Json
  import FileUpload
  import MessageFileModal
  import MessagesApi
  import ChatItem

  /** The value the upload box writes passes the dialog's schema exactly when
      the uploaded url and type have a non-white-space character; the name
      plays no part. */
  lemma UploadAcceptedIff(codec: Codec, res: seq<FileUpload.UploadedFile>)
    requires Lawful(codec) && |res| > 0
    ensures var value := FileUpload.UploadComplete(codec, res).value;
      MessageFileModal.Issues(codec, value) == [] <==> !IsBlank(res[0].url) && !IsBlank(res[0].kind)
  {
    var value := FileUpload.UploadComplete(codec, res).value;
    var v := Attachment(res[0].url, res[0].kind, res[0].name);
    assert codec.parse(value) == Some(v);
    MessageFileModal.RefineIff(codec, value);
    MessageFileModal.ValidIffRefined(codec, value);
  }

  /** A submitted attachment passes the endpoint's content guard: whatever the
      rest of the request, the answer is not "Content and File is missing". */
  lemma SubmittedBodyHasContent(codec: Codec, fileUrl: string, req: MessagesApi.Request,
                                profile: Option<MessagesApi.Profiles.Profile>,
                                servers: seq<MessagesApi.Server>, channels: seq<MessagesApi.Channel>,
                                storeFails: bool)
    requires Lawful(codec)
    requires MessageFileModal.Submit(codec, fileUrl).Some?
    requires req.body == MessageFileModal.Submit(codec, fileUrl).value
    ensures MessagesApi.Decide(req, profile, servers, channels, storeFails)
            != MessagesApi.Reject(404, "Content and File is missing")
  {
  }

  /** Whatever the chat row shows as an image, the upload box previews as an
      image too: lower-casing keeps the lower-case keyword, and the image
      branch comes first. */
  lemma ChatImageIsUploadImage(codec: Codec, value: string, url: string, kind: string, name: Option<string>)
    requires value != "" && url != ""
    requires codec.parse(value) == Some(Object(Some(url), Some(kind), name))
    requires ChatItem.MediaFlags(codec, Some(value)).value.isImage
    ensures FileUpload.RenderPreview(codec, value) == FileUpload.ImagePreview(url)
  {
    assert IsLowerCase("image");
    ToLowerCaseKeepsLowerCaseWords(kind, "image");
    assert |ToLowerCase(kind)| >= |"image"|;
  }

  /** The upload box's lower-cased "IMAGE/PNG" includes "image". */
  lemma LoweredUpperImageIncludesImage()
    ensures Includes(ToLowerCase("IMAGE/PNG"), "image")
  {
    var upper := "IMAGE/PNG";
    var lowered := ToLowerCase(upper);
    assert upper[0] == 'I' && upper[1] == 'M' && upper[2] == 'A' && upper[3] == 'G' && upper[4] == 'E';
    assert lowered[0] == 'i' && lowered[1] == 'm' && lowered[2] == 'a' && lowered[3] == 'g' && lowered[4] == 'e';
    assert lowered[..5] == "image";
    assert OccursAt(lowered, "image", 0);
  }

  /** "IMAGE/PNG" holds no ASCII lower-case letter. */
  lemma UpperImagePngIsUpperCase()
    ensures IsUpperCase("IMAGE/PNG")
  {
    var t := "IMAGE/PNG";
    assert t == ['I', 'M', 'A', 'G', 'E', '/', 'P', 'N', 'G'];
  }

  /** The upload box previews an upload of type "IMAGE/PNG" as an image. */
  lemma UpperImageUploadPreviewed(codec: Codec, url: string, name: string)
    requires Lawful(codec) && url != ""
    ensures FileUpload.RenderPreview(codec, codec.stringify(Attachment(url, "IMAGE/PNG", name))) == FileUpload.ImagePreview(url)
  {
    var v := Attachment(url, "IMAGE/PNG", name);
    var value := codec.stringify(v);
    assert codec.parse(value) == Some(v);
    StringifyNonEmpty(codec, v);
    LoweredUpperImageIncludesImage();
    var f := FileUpload.ReadValue(codec, value);
    assert f.file == url && f.fileType == ToLowerCase("IMAGE/PNG");
  }

  /** The converse fails: the upload box lower-cases the type and the chat row
      does not, so an upload of type "IMAGE/PNG" previews as an image in the
      upload box but shows no media in the chat row. */
  lemma UpperCaseTypeMismatch(codec: Codec, url: string, name: string)
    requires Lawful(codec) && url != ""
    ensures var value := codec.stringify(Attachment(url, "IMAGE/PNG", name));
      && FileUpload.RenderPreview(codec, value) == FileUpload.ImagePreview(url)
      && ChatItem.MediaFlags(codec, Some(value)) == Some(ChatItem.NoMedia)
  {
    var v := Attachment(url, "IMAGE/PNG", name);
    var value := codec.stringify(v);
    assert codec.parse(value) == Some(v);
    StringifyNonEmpty(codec, v);
    UpperImagePngIsUpperCase();
    ChatItem.UpperCaseTypeShowsNoMedia(codec, value);
    UpperImageUploadPreviewed(codec, url, name);
  }
}
