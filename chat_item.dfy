/** One message row of the chat view: who may delete or edit it, which media
    preview it shows for its attachment, and which of the text body, the edit
    form, the "(edited)" marker and the action toolbar appear. */
module ChatItem {
  import opened Js
  import opened Json
  import MessagesApi

  /** The server member table's row; the chat row reads its id and role. */
  type Member = MessagesApi.Member

  /** The message a row shows. `fileUrl` is the attachment reference, a JSON text. */
  datatype Item = Item(
    content: Option<string>,
    author: Member,
    fileUrl: Option<string>,
    deleted: bool,
    isUpdated: bool)

  predicate IsAdmin(current: Member)
  {
    current.role == MessagesApi.Admin
  }

  predicate IsModerator(current: Member)
  {
    current.role == MessagesApi.Moderator
  }

  predicate IsOwner(current: Member, author: Member)
  {
    current.id == author.id
  }

  predicate CanDeleteMessage(current: Member, item: Item)
  {
    !item.deleted && (IsAdmin(current) || IsModerator(current) || IsOwner(current, item.author))
  }

  predicate CanEditMessage(current: Member, item: Item)
  {
    !item.deleted && IsOwner(current, item.author) && !Truthy(item.fileUrl)
  }

  /** The attachment's declared type, `"UNKNOWN"` without an attachment; None
      where rendering throws: the text does not parse, or the parsed value has
      no string `type` on which `.includes` could be called. */
  function FileType(codec: Codec, fileUrl: Option<string>): Option<string>
  {
    if !Truthy(fileUrl) then Some("UNKNOWN")
    else match codec.parse(fileUrl.value)
      case Some(Object(_, kind, _)) => kind
      case _ => None
  }

  datatype Media = Media(isPdf: bool, isImage: bool, isAudio: bool, isVideo: bool)

  const NoMedia := Media(false, false, false, false)

  /** The four case-sensitive substring tests on the file type. */
  function MediaFlags(codec: Codec, fileUrl: Option<string>): Option<Media>
  {
    match FileType(codec, fileUrl)
    case None => None
    case Some(t) => Some(Media(Includes(t, "pdf"), Includes(t, "image"), Includes(t, "audio"), Includes(t, "video")))
  }

  /** The PDF branch reads `name.substring(0, 50)`, which throws when the parsed
      attachment has no string `name`. */
  predicate PdfNameMissing(codec: Codec, fileUrl: Option<string>)
  {
    Truthy(fileUrl) &&
    match codec.parse(fileUrl.value)
    case Some(Object(_, _, name)) => name.None?
    case _ => true
  }

  /** What a row shows. */
  datatype View = View(
    media: Media,
    showsText: bool,
    showsEditForm: bool,
    showsEditedMarker: bool,
    showsToolbar: bool,
    showsEditButton: bool,
    showsDeleteButton: bool)

  /** The row for `item` as seen by `current`, with the row's editing state
      `isEditing`; None where rendering throws. */
  function RenderRow(codec: Codec, item: Item, current: Member, isEditing: bool): Option<View>
  {
    match MediaFlags(codec, item.fileUrl)
    case None => None
    case Some(media) =>
      if media.isPdf && PdfNameMissing(codec, item.fileUrl) then None
      else
        var canDelete := CanDeleteMessage(current, item);
        var showsText := !Truthy(item.fileUrl) && !isEditing;
        Some(View(
          media,
          showsText,
          !Truthy(item.fileUrl) && isEditing,
          showsText && item.isUpdated && !item.deleted,
          canDelete,
          canDelete && CanEditMessage(current, item),
          canDelete))
  }

  /** The edit form's schema: `z.string().min(1)`. */
  predicate EditSchemaAccepts(content: string)
  {
    |content| >= 1
  }

  /** The edit form starts from `content || ""`. */
  function EditDefault(item: Item): string
  {
    OrElse(item.content, "")
  }

  /** A deleted message can be neither deleted nor edited, whatever the role. */
  lemma DeletedMessagesAreFrozen(current: Member, item: Item)
    requires item.deleted
    ensures !CanDeleteMessage(current, item) && !CanEditMessage(current, item)
  {
  }

  /** Admins and moderators may delete any live message; guests only their own. */
  lemma DeleteAuthority(current: Member, item: Item)
    requires !item.deleted
    ensures current.role != MessagesApi.Guest ==> CanDeleteMessage(current, item)
    ensures current.role == MessagesApi.Guest ==> (CanDeleteMessage(current, item) <==> current.id == item.author.id)
  {
  }

  /** Only the author may edit, whatever the role, and only a message without
      an attachment; the role plays no part. */
  lemma EditAuthority(current: Member, item: Item, role: MessagesApi.Role)
    ensures current.id != item.author.id ==> !CanEditMessage(current, item)
    ensures Truthy(item.fileUrl) ==> !CanEditMessage(current, item)
    ensures CanEditMessage(current, item) == CanEditMessage(current.(role := role), item)
  {
  }

  /** Whoever may edit a message may also delete it, so the edit control only
      ever appears inside the delete toolbar. */
  lemma EditImpliesDelete(codec: Codec, current: Member, item: Item, isEditing: bool)
    ensures CanEditMessage(current, item) ==> CanDeleteMessage(current, item)
    ensures var v := RenderRow(codec, item, current, isEditing);
      v.Some? && v.value.showsEditButton ==> v.value.showsToolbar && v.value.showsDeleteButton
  {
  }

  /** Without an attachment the type is "UNKNOWN", no media flag is set and the
      row always renders. */
  lemma NoAttachmentNoMedia(codec: Codec, item: Item, current: Member, isEditing: bool)
    requires !Truthy(item.fileUrl)
    ensures FileType(codec, item.fileUrl) == Some("UNKNOWN")
    ensures MediaFlags(codec, item.fileUrl) == Some(NoMedia)
    ensures RenderRow(codec, item, current, isEditing).Some?
  {
    var u := "UNKNOWN";
    NotIncludedWithoutHead(u, "pdf");
    NotIncludedWithoutHead(u, "image");
    NotIncludedWithoutHead(u, "audio");
    NotIncludedWithoutHead(u, "video");
  }

  /** The flags are case-sensitive: a type without an ASCII lower-case letter,
      such as "IMAGE/PNG", sets none of them. */
  lemma UpperCaseTypeShowsNoMedia(codec: Codec, fileUrl: string)
    requires fileUrl != ""
    requires codec.parse(fileUrl).Some? && codec.parse(fileUrl).value.Object?
    requires codec.parse(fileUrl).value.kind.Some? && IsUpperCase(codec.parse(fileUrl).value.kind.value)
    ensures MediaFlags(codec, Some(fileUrl)) == Some(NoMedia)
  {
    var t := codec.parse(fileUrl).value.kind.value;
    NotIncludedWithoutHead(t, "pdf");
    NotIncludedWithoutHead(t, "image");
    NotIncludedWithoutHead(t, "audio");
    NotIncludedWithoutHead(t, "video");
  }

  /** The flags are not mutually exclusive: a type can set two of them. */
  lemma MediaFlagsOverlap(codec: Codec, fileUrl: string)
    requires fileUrl != ""
    requires codec.parse(fileUrl).Some? && codec.parse(fileUrl).value.Object?
    requires codec.parse(fileUrl).value.kind == Some("image/pdf")
    ensures var m := MediaFlags(codec, Some(fileUrl)); m.Some? && m.value.isImage && m.value.isPdf
  {
    var t := "image/pdf";
    assert OccursAt(t, "image", 0);
    assert OccursAt(t, "pdf", 6);
  }

  /** The text body and the edit form appear only for a message without an
      attachment, never together; "(edited)" shows only on an updated, live
      message's text. */
  lemma RenderedParts(codec: Codec, item: Item, current: Member, isEditing: bool)
    requires RenderRow(codec, item, current, isEditing).Some?
    ensures var v := RenderRow(codec, item, current, isEditing).value;
      && (v.showsText || v.showsEditForm ==> !Truthy(item.fileUrl))
      && !(v.showsText && v.showsEditForm)
      && (v.showsEditedMarker <==> v.showsText && item.isUpdated && !item.deleted)
      && (v.showsEditedMarker ==> !item.deleted)
  {
  }

  /** The edit form's starting value passes its schema exactly when the
      message has (non-empty) content. */
  lemma EditDefaultAccepted(item: Item)
    ensures EditSchemaAccepts(EditDefault(item)) <==> Truthy(item.content)
  {
  }
}
