# SyncUp chat client: decision rules, modelled in Dafny

SyncUp is a Discord-style chat client built with Next.js. Most of it is UI, plus
calls to a database (Prisma), an identity provider (Clerk) and a socket server
(socket.io). This project models the parts that make decisions, as plain data:

- **Message creation endpoint** (`messages_api.dfy`, module `MessagesApi`). The
  POST handler's guard chain answers 405, 401, 404 or 500. It is the pure
  function `Decide`. On success, the class `MessageApi` appends one row to its
  message table and, if the socket server is attached, one broadcast on
  `chat:<channelId>:messages` to its event log (method `Post`).
- **Chat row** (`chat_item.dfy`, module `ChatItem`). These are the rules for who
  may delete or edit a message, the four case-sensitive media flags, and which
  parts of the row render. It also has the edit form's schema.
- **Attachment dialog** (`message_file_modal.dfy`, module `MessageFileModal`).
  This is the zod schema on the attachment reference, its default value and
  the body it posts.
- **Upload box** (`file_upload.dfy`, module `FileUpload`). It reads the value
  into url, type and name with their defaults. It picks the preview (image,
  then PDF, then audio, then video, else the dropzone), shortens names, and
  writes the uploaded file's reference back on completion.
- **Route guard** (`middleware.dfy`, module `Middleware`). It decides which paths
  are public and whether a request is redirected to `/intro`.
- **Profile table** (`profiles.dfy`, module `Profiles`). It covers
  `currentProfile`, a read-only lookup, and `initialProfile`, a find-or-create
  over a table keyed by user id. The class is `ProfileStore`.
- **Cross-file behaviour** (`attachment_flow.dfy`, module `AttachmentFlow`). It
  follows one attachment reference from upload to dialog to endpoint to chat
  row.

Two shared modules support the others. `Js` holds the JavaScript semantics the
rules rely on: null and undefined, string truthiness, `startsWith`,
`includes`, `trim` and `toLowerCase`. `Json` makes `JSON.parse` and
`JSON.stringify` two parameters, tied by the law that parse inverts stringify
and rejects the empty text. A parsed value is seen only through the three
fields `url`, `type` and `name`. In Dafny the `type` field is named `kind`,
because `type` is a keyword.

Two behaviours of the code are stated as lemmas:

- The attachment dialog's refinement tests `type` twice and never tests
  whether `name` is blank. A blank name therefore passes
  (`MessageFileModal.BlankNameAccepted`).
- The upload box lower-cases the type but the chat row does not. So a type
  `IMAGE/PNG` previews as an image in the upload box but shows no media in the
  chat row (`AttachmentFlow.UpperCaseTypeMismatch`). For an attachment with a
  url, the reverse cannot happen (`AttachmentFlow.ChatImageIsUploadImage`).
  Without a url, the chat row still sets its image flag while the upload box
  shows the dropzone.

A message without content or file is answered 404. "Member not
found" is unreachable, because the server query already requires the caller
to be a member (`MessagesApi.MemberAlwaysFound`).

## Model

| member | source | states |
|---|---|---|
| `MessagesApi.Decide` | pages/api/socket/messages/index.ts:10-62 | A rejection carries only 401, 404, 405 or 500. A creation names the requested channel id, which was present and non-empty. |
| `MessagesApi.FindServer` | pages/api/socket/messages/index.ts:29-41 | A found server is in the table, has the requested id and has a member with the caller's profile id. If none is found, no server in the table has both. |
| `MessagesApi.FindChannel` | pages/api/socket/messages/index.ts:47-52 | A found channel has the requested id and server id. If none is found, no channel has both. |
| `MessagesApi.FindMember` | pages/api/socket/messages/index.ts:58 | The result is the first member with the caller's profile id. If none is found, no member has that profile id. |
| `MessagesApi.MessageApi.Post` | pages/api/socket/messages/index.ts:64-83 | A rejection changes nothing. A creation appends exactly one message to the table, with the request's content and fileUrl, the validated channel and the caller's member. It appends exactly one broadcast of that same message on `chat:<channelId>:messages` when the socket is attached, none otherwise, and returns that message. |
| `MessagesApi.NonPostRejected` | pages/api/socket/messages/index.ts:10-12 | Any method other than POST is answered 405, whatever else holds. |
| `MessagesApi.UnauthenticatedRejected` | pages/api/socket/messages/index.ts:16-18 | A POST without a resolved profile is answered 401, before any id or content guard. |
| `MessagesApi.GuardOrder` | pages/api/socket/messages/index.ts:23-27 | Server id, then channel id, then content-or-file. The first falsy one (absent or "") decides the 404 text, whatever the tables hold. |
| `MessagesApi.CreateIff` | pages/api/socket/messages/index.ts:29-69 | A message is created if and only if all request guards pass, the store answers, a server with the id has the caller as a member, and a channel with the id belongs to that server. The row's member is then a member of that server with the caller's profile id. |
| `MessagesApi.MemberAlwaysFound` | pages/api/socket/messages/index.ts:29-62 | The answer is never "Member not found". |
| `MessagesApi.StoreFailureIsInternalError` | pages/api/socket/messages/index.ts:84-87 | When the database raises after the request guards pass, the answer is 500. |
| `MessagesApi.ChannelKeyInjective` | pages/api/socket/messages/index.ts:80-81 | Different channel ids give different event names, so a broadcast reaches only its own channel's key. |
| `ChatItem.CanDeleteMessage` | components/chat/chat-item.tsx:86-89 | `canDeleteMessage`: a live message, and the viewer is an admin, a moderator or its author. Its properties are stated by `DeletedMessagesAreFrozen` and `DeleteAuthority`. |
| `ChatItem.CanEditMessage` | components/chat/chat-item.tsx:88-90 | `canEditMessage`: a live message without an attachment, and the viewer is its author. Its properties are stated by `DeletedMessagesAreFrozen`, `EditAuthority` and `EditImpliesDelete`. |
| `ChatItem.FileType` | components/chat/chat-item.tsx:92 | The attachment's parsed `type`, or "UNKNOWN" without an attachment. It is undefined (rendering throws) when the text does not parse or has no string `type`. |
| `ChatItem.MediaFlags` | components/chat/chat-item.tsx:93-96 | The four case-sensitive `includes` tests on that type. Their properties are stated by `NoAttachmentNoMedia`, `UpperCaseTypeShowsNoMedia` and `MediaFlagsOverlap`. |
| `ChatItem.RenderRow` | components/chat/chat-item.tsx:165-300 | Which parts of the row render: media flags, text body, edit form, "(edited)" marker, toolbar, and edit and delete buttons. It is undefined where the PDF branch throws on a missing name. Its properties are stated by `RenderedParts`, `EditImpliesDelete` and `NoAttachmentNoMedia`. |
| `ChatItem.EditSchemaAccepts` | components/chat/chat-item.tsx:58-60 | The edit form's `z.string().min(1)`: at least one character. |
| `ChatItem.EditDefault` | components/chat/chat-item.tsx:82 | The edit form's starting value `content \|\| ""`. `EditDefaultAccepted` relates it to the schema. |
| `ChatItem.DeletedMessagesAreFrozen` | components/chat/chat-item.tsx:89-90 | A deleted message can be neither deleted nor edited, whatever the role. |
| `ChatItem.DeleteAuthority` | components/chat/chat-item.tsx:86-89 | On a live message, admins and moderators may always delete. A guest may delete exactly their own messages. |
| `ChatItem.EditAuthority` | components/chat/chat-item.tsx:88-90 | Only the author may edit, and never a message with an attachment. Changing the role never changes whether editing is allowed. |
| `ChatItem.EditImpliesDelete` | components/chat/chat-item.tsx:276-298 | Whoever may edit may also delete. A rendered edit button always sits in a shown toolbar beside the delete button. |
| `ChatItem.NoAttachmentNoMedia` | components/chat/chat-item.tsx:92-96 | Without a truthy fileUrl the type is "UNKNOWN", no media flag is set, and the row always renders. |
| `ChatItem.UpperCaseTypeShowsNoMedia` | components/chat/chat-item.tsx:92-96 | The flags are case-sensitive: any type without an ASCII lower-case letter, such as "IMAGE/PNG", sets none of them. |
| `ChatItem.MediaFlagsOverlap` | components/chat/chat-item.tsx:93-96 | The flags are not mutually exclusive: type "image/pdf" sets both isImage and isPDF. |
| `ChatItem.RenderedParts` | components/chat/chat-item.tsx:225-241 | The text body and the edit form appear only without an attachment, and never together. "(edited)" shows exactly on the text body of an updated, non-deleted message. |
| `ChatItem.EditDefaultAccepted` | components/chat/chat-item.tsx:58-60 | The edit form's starting value `content \|\| ""` passes `min(1)` exactly when the message has non-empty content. |
| `MessageFileModal.Refine` | components/modals/message-file-modal.tsx:30-48 | The refine callback as written: a parse failure, null or a non-object is refused. An object needs string `url` and `type` whose trim is non-empty, a string `name`, and `type` tested again. `RefineIff` restates it without trim. |
| `MessageFileModal.Issues` | components/modals/message-file-modal.tsx:26-50 | The issues the schema reports, in order: "Attachment is required" for "", then "Invalid file data format" when the refinement refuses. Zod runs the refinement after a failed `min(1)`. `ValidIffRefined` and `EmptyIsRequired` state its properties. |
| `MessageFileModal.DefaultFileUrl` | components/modals/message-file-modal.tsx:62-68 | The form's default: the text of `{url: "", type: "", name: ""}`. `DefaultRejected` states that it is refused. |
| `MessageFileModal.Submit` | components/modals/message-file-modal.tsx:78-86 | A body is posted exactly when the schema reports no issue. It is `{ fileUrl }` with the value unchanged and no content, and that fileUrl is non-empty. |
| `MessageFileModal.RefineIff` | components/modals/message-file-modal.tsx:30-43 | The refinement accepts exactly a parsed object whose url and type are strings that are not all white space and whose name is any string. |
| `MessageFileModal.ValidIffRefined` | components/modals/message-file-modal.tsx:26-50 | The schema reports no issue exactly when the refinement accepts. The `min(1)` check never rejects a value that the refinement accepts. |
| `MessageFileModal.EmptyIsRequired` | components/modals/message-file-modal.tsx:27-29 | The empty string is reported first as "Attachment is required", then as an invalid format. |
| `MessageFileModal.NonObjectRejected` | components/modals/message-file-modal.tsx:32-36 | A text that does not parse, or parses to null or a non-object, is reported as an invalid format. |
| `MessageFileModal.BlankNameAccepted` | components/modals/message-file-modal.tsx:41-42 | With url and type not blank, an attachment with a blank name is valid. |
| `MessageFileModal.DefaultRejected` | components/modals/message-file-modal.tsx:62-68 | The default `{url:"",type:"",name:""}` is reported as an invalid format (only), so Send without an upload is refused. |
| `FileUpload.ReadValue` | components/file-upload.tsx:18-31 | The locals `file`, `fileType` and `fileName` after reading the value. They stay "" for an empty value, a parse failure or null. `ObjectDefaults` and `UploadRoundTrip` state their contents. |
| `FileUpload.ObjectFields` | components/file-upload.tsx:25-27 | The three `\|\|` defaults and the lower-casing applied to a parsed object. |
| `FileUpload.RenderPreview` | components/file-upload.tsx:33-147 | The if/return chain that picks image, PDF, audio or video preview, or else the dropzone. `PreviewPrecedence`, `PreviewLabels` and the dropzone lemmas state its properties. |
| `FileUpload.Truncate` | components/file-upload.tsx:51-52 | Names of 50 characters or fewer are unchanged. Longer names become their first 50 characters followed by "...", 53 in all. |
| `FileUpload.UploadComplete` | components/file-upload.tsx:135-142 | A value is written exactly when the upload service returned at least one file. |
| `FileUpload.EmptyValueShowsDropzone` | components/file-upload.tsx:22 | An empty value leaves url, type and name empty and shows the dropzone. |
| `FileUpload.RemoveShowsDropzone` | components/file-upload.tsx:41-118 | The value every remove button writes shows the dropzone. |
| `FileUpload.UnparseableShowsDropzone` | components/file-upload.tsx:23-30 | A value that does not parse leaves url, type and name empty and shows the dropzone. |
| `FileUpload.NoUrlShowsDropzone` | components/file-upload.tsx:34-105 | With an empty url the dropzone shows, whatever the type. |
| `FileUpload.ObjectDefaults` | components/file-upload.tsx:25-27 | A missing url reads as "". The type is lower-cased, and a missing or empty type reads as "Unknown". A missing name reads as "File Uploaded". |
| `FileUpload.PreviewPrecedence` | components/file-upload.tsx:34-105 | With a url, the preview is the first of image, pdf, audio and video whose keyword the type includes. If it includes none, the dropzone shows. A preview's source is the url. |
| `FileUpload.PreviewLabels` | components/file-upload.tsx:50-113 | PDF, audio and video captions are the shortened name. They are never empty and at most 53 characters long. |
| `FileUpload.UploadRoundTrip` | components/file-upload.tsx:135-142 | Reading back the value written on upload gives the uploaded url and name, and the lower-cased type, with defaults for an empty type or name. |
| `Middleware.RouteMatches` | middleware.ts:13-14 | `new RegExp("^" + route + "$").test(pathname)` for a route `text(.*)`: the path starts with the text and the rest holds no line terminator. |
| `Middleware.IsPublic` | middleware.ts:12-15 | `publicRoutes.some(...)` over the three routes. `PublicIffPrefix` reduces it to a prefix test. |
| `Middleware.Route` | middleware.ts:17-23 | Redirect to `/intro` when the path is not public and there is no user id, else pass through. `RedirectIff`, `NeverRedirected` and `RedirectTargetIsPublic` state its properties. |
| `Middleware.SomeRouteMatchesIff` | middleware.ts:12-15 | `publicRoutes.some(...)` holds exactly when one of the route patterns matches. |
| `Middleware.PublicIffPrefix` | middleware.ts:5-15 | On a URL pathname, a path is public exactly when it starts with `/sign-in`, `/sign-up` or `/intro`. |
| `Middleware.PublicHasPrefix` | middleware.ts:12-15 | Any public path starts with one of the three prefixes. |
| `Middleware.PrefixIsNotASegment` | middleware.ts:5-13 | `/introduction` and `/sign-inx` are public: the match is a raw prefix, not a path segment. |
| `Middleware.RedirectIff` | middleware.ts:17-23 | On a pathname, a request is redirected exactly when there is no user id and the path has none of the public prefixes. Any redirect goes to `/intro`. |
| `Middleware.NeverRedirected` | middleware.ts:18-23 | Requests with a user id, and requests to public paths, are passed through. |
| `Middleware.RedirectTargetIsPublic` | middleware.ts:5-20 | The redirect target is public, and a request to it is passed through, so the guard cannot loop. |
| `Profiles.CurrentProfile` | lib/current-profile.ts:4-22 | A returned profile is in the table and carries the signed-in user's id. Null is returned only when there is no user or no profile with that user id. |
| `Profiles.InitialProfileSpec` | lib/initial-profile.ts:7-36 | Find-or-create as a function of the old table: the outcome (redirect, returned profile or throw) and the new table. `NoUserRedirects`, `ExistingProfileReturned`, `NewProfileCreated`, `NoEmailThrows` and `InitialProfileIdempotent` state its properties. |
| `Profiles.DisplayName` | lib/initial-profile.ts:24 | The template `${firstName} ${lastName}`, where a missing name interpolates as "null". `DisplayNameOfNamedUser` states the named case. |
| `Profiles.ProfileStore.InitialProfile` | lib/initial-profile.ts:7-36 | The outcome and the new table are those of `InitialProfileSpec` on the old table. The table stays keyed by user id. |
| `Profiles.InitialProfileKeepsKeys` | lib/initial-profile.ts:14-33 | Find-or-create keeps every profile stored under its own user id. |
| `Profiles.NoUserRedirects` | lib/initial-profile.ts:8-12 | Without a signed-in user the call redirects to `/intro`, and the table is unchanged. |
| `Profiles.ExistingProfileReturned` | lib/initial-profile.ts:14-22 | If a profile with the user's id exists, it is returned and the table is unchanged. |
| `Profiles.NewProfileCreated` | lib/initial-profile.ts:24-33 | Otherwise exactly one profile is added, under the user's id, and every other row is kept. It has the new id, the user's id, name "first last", the user's image url and the first e-mail address. |
| `Profiles.DisplayNameOfNamedUser` | lib/initial-profile.ts:24 | With both names set, the name is first name, a space, last name. |
| `Profiles.NoEmailThrows` | lib/initial-profile.ts:26-31 | A new user without an e-mail address makes the call throw before anything is written. |
| `Profiles.InitialProfileIdempotent` | lib/initial-profile.ts:14-35 | A second call for the same user returns the profile the first call returned, and changes nothing. |
| `Profiles.CurrentAfterInitial` | lib/current-profile.ts:11-21 | After find-or-create returns a profile, the lookup for that user returns the same profile. |
| `Js.Trim` | components/modals/message-file-modal.tsx:38-42 | `String.prototype.trim`: white space and line terminators are dropped from both ends. `TrimEmptyIffBlank` states when the result is empty. |
| `Js.TrimEmptyIffBlank` | components/modals/message-file-modal.tsx:37-40 | `s.trim() === ""` exactly when every character of `s` is JavaScript white space. |
| `Js.ToLowerCase` | components/file-upload.tsx:26 | Lower-casing keeps the length and maps each character on its own. |
| `Js.ToLowerCaseKeepsLowerCaseWords` | components/file-upload.tsx:26-34 | If `s` includes a lower-case word, so does `s.toLowerCase()`. |
| `AttachmentFlow.UploadAcceptedIff` | components/modals/message-file-modal.tsx:30-43 | The value the upload box writes is valid for the dialog exactly when the uploaded url and type are not blank. The name plays no part. |
| `AttachmentFlow.SubmittedBodyHasContent` | pages/api/socket/messages/index.ts:27 | A body posted by the dialog never gets "Content and File is missing". |
| `AttachmentFlow.ChatImageIsUploadImage` | components/chat/chat-item.tsx:92-94 | Whatever the chat row shows as an image (with a url), the upload box previews as that image. |
| `AttachmentFlow.UpperImageUploadPreviewed` | components/file-upload.tsx:26-34 | The upload box lower-cases an upload of type "IMAGE/PNG" and previews it as an image from the uploaded url. |
| `AttachmentFlow.UpperCaseTypeMismatch` | components/chat/chat-item.tsx:92-96 | An upload of type "IMAGE/PNG" previews as an image in the upload box but shows no media in the chat row. |

## Left out

- Calls to the database, the identity provider and the socket server are inputs:
  - the caller's profile;
  - the server and channel tables;
  - a flag saying that the database raises (`storeFails`);
  - a flag saying that the socket server is attached (`socketReady`);
  - the ids the database gives new rows.
- A failure inside the caller's profile lookup (`currentProfilePages`) is not
  modelled on its own. That lookup is not part of this model.
- Query parameters given as arrays (`string[]`) and request bodies whose
  `content` or `fileUrl` are not strings are not modelled.
- Async ordering, concurrency between the insert and the emit, HTTP transport
  and the response's JSON shape are not modelled. Only the order of effects is
  kept. Message timestamps and the included author profile are omitted.
- The JSON grammar is not modelled. `JSON.parse` and `JSON.stringify` are
  parameters tied by their round-trip law. A field holding a non-string value
  (number, array, object) is treated as absent. Where such a value would make
  the code throw, or make `.includes` work on an array, the model differs.
- Js.ToLowerCase: lower-cases only the ASCII letters A-Z. The Unicode case
  mapping of `toLowerCase` is not modelled.
- String lengths (`FileUpload.Truncate`, `min(1)`) count Unicode scalar values,
  not UTF-16 code units. The two agree outside the supplementary planes.
- ChatItem.RenderRow: gives which parts of the row render and the media flags,
  not their contents. Not modelled: the hrefs, the image alt text, the
  `substring(0, 50)` caption, the "PDF FILE" fallback, and the role icon and
  avatar. A missing PDF `name`, which throws, is kept.
- The chat row's `isEditing` state is a parameter. The Escape-key effect and
  the `onSubmit` PATCH call are browser and network plumbing.
- The framework's `matcher` (negative lookahead over static files) decides
  which requests reach the middleware. It is not modelled.
- Paging, caching and the live socket subscription registry are not modelled.
  They live in hooks/use-chat-query.ts, an API route and a socket-server setup,
  which are not part of this model.
- The other route handlers, pages, modals and layout components are UI and
  database plumbing and are not modelled.
