/** The "Add an attachment" dialog: its form holds one string, the attachment
    reference as JSON text, checked by `z.string().min(1).refine(...)`; a valid
    form is posted as the body `{ fileUrl }` of the message endpoint. */
module MessageFileModal {
  import opened Js
  import opened Json
  import MessagesApi

  /** The refine callback, as written: JSON.parse inside try/catch, then the
      conjunction on the parsed value. Its last conjunct tests `type` again
      where the `name` test would be expected. */
  predicate Refine(codec: Codec, data: string)
  {
    match codec.parse(data)
    case None => false  // JSON.parse threw; the catch returns false
    case Some(Null) => false
    case Some(Primitive) => false
    case Some(Object(url, kind, name)) =>
      && url.Some? && Trim(url.value) != ""
      && kind.Some? && Trim(kind.value) != ""
      && name.Some?
      && Trim(kind.value) != ""
  }

  datatype Issue = AttachmentRequired | InvalidFileDataFormat

  function IssueMessage(i: Issue): string
  {
    match i
    case AttachmentRequired => "Attachment is required"
    case InvalidFileDataFormat => "Invalid file data format"
  }

  /** The issues the schema reports for `fileUrl`, in order. A failed `min(1)`
      does not stop the refinement from running. */
  function Issues(codec: Codec, fileUrl: string): seq<Issue>
  {
    (if |fileUrl| < 1 then [AttachmentRequired] else [])
    + (if Refine(codec, fileUrl) then [] else [InvalidFileDataFormat])
  }

  /** The form's default value: the text of `{url: "", type: "", name: ""}`. */
  function DefaultFileUrl(codec: Codec): string
  {
    codec.stringify(Attachment("", "", ""))
  }

  /** `onSubmit`, which the form calls only when the schema reports nothing:
      the body posted to the message endpoint. */
  function Submit(codec: Codec, fileUrl: string): (body: Option<MessagesApi.Body>)
    requires Lawful(codec)
    ensures body.Some? <==> Issues(codec, fileUrl) == []
    ensures body.Some? ==> body.value == MessagesApi.Body(None, Some(fileUrl)) && Truthy(body.value.fileUrl)
  {
    if Issues(codec, fileUrl) == [] then
      assert Refine(codec, fileUrl);
      assert codec.parse("") == None;
      Some(MessagesApi.Body(None, Some(fileUrl)))
    else None
  }

  /** What the refinement accepts, stated with white-space-only strings instead
      of trim: a parsed object whose url and type are strings with some
      non-white-space character and whose name is any string. */
  lemma RefineIff(codec: Codec, data: string)
    ensures Refine(codec, data) <==>
      && codec.parse(data).Some? && codec.parse(data).value.Object?
      && var v := codec.parse(data).value;
         && v.url.Some? && !IsBlank(v.url.value)
         && v.kind.Some? && !IsBlank(v.kind.value)
         && v.name.Some?
  {
    match codec.parse(data)
    case Some(Object(url, kind, name)) =>
      if url.Some? { TrimEmptyIffBlank(url.value); }
      if kind.Some? { TrimEmptyIffBlank(kind.value); }
    case _ =>
  }

  /** The form is valid exactly when the refinement accepts: JSON.parse("")
      throws, so the empty string never passes the refinement either. */
  lemma ValidIffRefined(codec: Codec, fileUrl: string)
    requires Lawful(codec)
    ensures Issues(codec, fileUrl) == [] <==> Refine(codec, fileUrl)
  {
    if fileUrl == "" {
      assert codec.parse("") == None;
    }
  }

  /** The empty string is reported first as "Attachment is required". */
  lemma EmptyIsRequired(codec: Codec)
    requires Lawful(codec)
    ensures Issues(codec, "") == [AttachmentRequired, InvalidFileDataFormat]
    ensures IssueMessage(Issues(codec, "")[0]) == "Attachment is required"
  {
    assert codec.parse("") == None;
  }

  /** A text that does not parse, or parses to null or to a non-object, is rejected. */
  lemma NonObjectRejected(codec: Codec, fileUrl: string)
    requires codec.parse(fileUrl).None? || !codec.parse(fileUrl).value.Object?
    ensures InvalidFileDataFormat in Issues(codec, fileUrl)
  {
  }

  /** The name is only required to be a string: a blank name passes, because
      the last conjunct re-tests the type. */
  lemma BlankNameAccepted(codec: Codec, url: string, kind: string, name: string)
    requires Lawful(codec)
    requires !IsBlank(url) && !IsBlank(kind) && IsBlank(name)
    ensures Issues(codec, codec.stringify(Attachment(url, kind, name))) == []
  {
    var text := codec.stringify(Attachment(url, kind, name));
    assert codec.parse(text) == Some(Attachment(url, kind, name));
    RefineIff(codec, text);
    ValidIffRefined(codec, text);
  }

  /** The default value fails the refinement (its url is empty), so Send
      without an upload is refused. */
  lemma DefaultRejected(codec: Codec)
    requires Lawful(codec)
    ensures Issues(codec, DefaultFileUrl(codec)) == [InvalidFileDataFormat]
  {
    var v := Attachment("", "", "");
    assert codec.parse(codec.stringify(v)) == Some(v);
    StringifyNonEmpty(codec, v);
  }
}
