# Portfolio dashboard core, modelled in Dafny

This project models the logic behind a personal portfolio site with an
administration dashboard. The parts modelled are these:

- **Slug generator and post dialog.** The slug is derived from the title while a new post is being written.
- **Sanitiser.** The Markdown and plain-text sanitiser sits in front of the blog renderer. It has a fixed tag and attribute allow-list and a fixed forbid-list.
- **Contact-form schema.** `connectPostSchema` checks an e-mail and a message of at least five characters.
- **Validation-error flattening.** This is `formatZodErrors`.
- **API gate.** `protectAPI` admits a signed-in user only when the user's e-mail and name are both on comma-separated allow-lists.
- **Upload gate.** The upload middleware applies the same rule.
- **Image deletion.** `deleteImage` takes the key from a stored file's URL.
- **Post editor and project editor forms.** They hold tags or tools without blanks or duplicates. They keep the selected image, upload a picked image on submit, and build the save request.
- **Dashboard lists of posts, projects and messages.** Each list has a case-insensitive search, delete, publish toggle and mark-as-read. It also has the "first three badges and +n" row.
- **Rubik's cube.** It has the initial colouring, naming and placement of the 27 cubies, and the rule that turns a mouse drag into a layer rotation.
- **Home-page greeting.** It is chosen by the hour.

Shared pieces are their own modules:

- `Text`: the JavaScript string operations the code uses (`trim`, `split`, `toLowerCase`, `includes`, regular-expression replacements).
- `Lists`: `filter` and duplicate-freedom.
- `Entries`: the add-an-entry rule both editors share.
- `Uploads`: the image selection and upload step both editors share.
- `Search`: the search test.

Stateful React components are classes whose fields are the component's
state. Each handler is a method whose contract gives the whole new state.
Network replies, confirmation dialogs, the clock, the session lookup,
`marked`, DOMPurify, the e-mail format test and the upload service are
parameters of the operations that use them. Requests the code sends are
returned as values.

Two places where the model departs from the prose description of the system follow the code:

- The slug is not trimmed, so a title with surrounding spaces gets edge hyphens (`PostDialog.SlugKeepsEdgeHyphens`).
- The key that `deleteImage` takes from a URL ending in `/` is empty (`UploadServer.TrailingSlashGivesEmptyKey`).

## Model

| member | source | states |
|---|---|---|
| PostDialog.GenerateSlugShape | src/components/dashboard/post-dialog.tsx:69-75 | every generated slug holds only `a-z`, `0-9` and `-`, with no two adjacent hyphens, whatever the title |
| PostDialog.GenerateSlugOfSlug | src/components/dashboard/post-dialog.tsx:69-75 | a string already in slug shape is its own slug |
| PostDialog.GenerateSlugIdempotent | src/components/dashboard/post-dialog.tsx:69-75 | slugging a slug changes nothing |
| PostDialog.GenerateSlugKeepsAlnum | src/components/dashboard/post-dialog.tsx:69-75 | the letters and digits of the slug are exactly those of the lower-cased title, in order |
| PostDialog.SlugDropsTab | src/components/dashboard/post-dialog.tsx:71-73 | a tab is removed by the character filter before white space is hyphenated |
| PostDialog.SlugKeepsEdgeHyphens | src/components/dashboard/post-dialog.tsx:69-75 | " hi " becomes "-hi-": edges are not trimmed |
| PostDialog.SlugOfPunctuatedTitle | src/components/dashboard/post-dialog.tsx:69-75 | "A, b" becomes "a-b" |
| PostDialog.Dialog.constructor | src/components/dashboard/post-dialog.tsx:40-43 | the form starts empty and unpublished |
| PostDialog.Dialog.Reset | src/components/dashboard/post-dialog.tsx:45-57 | an edited post's fields are copied in; with no post the form is cleared |
| PostDialog.Dialog.TitleChange | src/components/dashboard/post-dialog.tsx:77-82 | the title is stored; the slug follows it, in slug shape, only while no existing post is edited |
| PostDialog.Dialog.SlugChange | src/components/dashboard/post-dialog.tsx:111 | the slug is whatever was typed |
| PostDialog.Dialog.ContentChange | src/components/dashboard/post-dialog.tsx:121 | the content is stored |
| PostDialog.Dialog.PublishedChange | src/components/dashboard/post-dialog.tsx:128-131 | the published flag is stored |
| PostDialog.Dialog.Submit | src/components/dashboard/post-dialog.tsx:59-67 | the payload is the current title, slug, content and flag |
| Sanitize.CleanHasNoNul | src/lib/sanitize.ts:68 | the cleaned Markdown holds no NUL |
| Sanitize.CleanIsTrimmed | src/lib/sanitize.ts:68 | the cleaned Markdown has no white space at either end |
| Sanitize.CleanIdempotent | src/lib/sanitize.ts:68 | cleaning twice is cleaning once |
| Sanitize.CleanRemovesNulThenTrims | src/lib/sanitize.ts:68 | NULs go before the trim, so "\0 x " cleans to "x" |
| Sanitize.NonStringYieldsEmpty | src/lib/sanitize.ts:63-65 | a non-string argument gives "" whatever the parser and sanitiser |
| Sanitize.ParserSeesOnlyCleanedText | src/lib/sanitize.ts:62-75 | inputs that clean alike give the same sanitised HTML |
| Sanitize.SanitiserSeesOnlyParserOutput | src/lib/sanitize.ts:71-74 | the result depends only on the sanitiser's answer for the parsed HTML under the blog configuration |
| Sanitize.PlainTextIsNotCleaned | src/lib/sanitize.ts:62-79 | "\0 x " and "x" give the same Markdown result for every parser and sanitiser, yet some sanitiser tells them apart as plain text: plain text is not cleaned |
| Sanitize.PlainTextOverridesAllowedTags | src/lib/sanitize.ts:77-79 | for every text and parser some sanitiser answers the plain-text call and the Markdown call differently: the plain-text call overrides the allowed tags with the empty list |
| Sanitize.PlainTextSeesOnlyEmptyTagOverride | src/lib/sanitize.ts:77-79 | the plain-text result depends only on the sanitiser's answer for the raw text under the blog configuration with no allowed tags |
| Sanitize.TagListsDisjoint | src/lib/sanitize.ts:10-59 | no tag is both allowed and forbidden, so `script`, `style`, `iframe`, `object`, `embed` and `form` are never allowed |
| Sanitize.AttributeListsDisjoint | src/lib/sanitize.ts:47-59 | no attribute is both allowed and forbidden, so `onerror`, `onload`, `onclick` and `style` are never allowed |
| ZodErrors.Key | src/utils/zod.ts:7 | the key is the path's first element, or "undefined" for an empty path |
| ZodErrors.FormatZodErrors | src/utils/zod.ts:3-11 | the loop builds the map of one assignment per issue in order; no issues give the empty map |
| ZodErrors.FlattenKeys | src/utils/zod.ts:6-8 | the keys are exactly the keys the issues name |
| ZodErrors.FlattenLastWins | src/utils/zod.ts:6-8 | an issue that no later issue with the same key follows decides that key's message |
| ZodErrors.FlattenValuesFromIssues | src/utils/zod.ts:6-8 | every value is the message of some issue with that key |
| ZodErrors.FlattenSize | src/utils/zod.ts:6-8 | there are never more keys than issues |
| Validators.EmailIssues | src/lib/validators.ts:3 | the e-mail field has no issue iff it is a string in e-mail format; issues sit on path `email` |
| Validators.MessageIssues | src/lib/validators.ts:4 | the message field has no issue iff it is a string of at least 5 characters; issues sit on path `message` |
| Validators.ConnectPostSchema | src/lib/validators.ts:2-5 | parsing succeeds iff the payload is an object with a valid e-mail and message, returning those two strings; a failure has at least one issue |
| Validators.ShortMessageRejected | src/lib/validators.ts:4 | a message under 5 characters fails with "not enough characters" on `message` |
| Validators.AcceptedIsNonEmpty | src/lib/validators.ts:2-5 | an accepted message is non-empty and its e-mail passed the format test |
| Validators.EmptyMessageShowsDefault | src/lib/validators.ts:4 | for an empty message the flattened errors show the later `nonempty` message, not the custom one |
| ApiAuth.AllowList | src/lib/api-auth.ts:5-6 | an allow-list always has at least one entry |
| ApiAuth.ProtectApi | src/lib/api-auth.ts:8-31 | no session gives 401 "Unauthorized"; a session is allowed iff its e-mail and name are both listed, else 403 "Forbidden" |
| ApiAuth.NoSessionIgnoresLists | src/lib/api-auth.ts:13-17 | without a session the lists are never consulted |
| ApiAuth.OneListIsNotEnough | src/lib/api-auth.ts:21-26 | matching only one of the two lists gives 403 |
| ApiAuth.PiecesAreUntrimmed | src/lib/api-auth.ts:5-6 | "a@x, b@x" lists " b@x", not "b@x" |
| ApiAuth.TrailingCommaAddsEmpty | src/lib/api-auth.ts:5-6 | a trailing comma adds an empty entry |
| ApiAuth.MembershipIsCaseSensitive | src/lib/api-auth.ts:21-26 | "A@x" does not match "a@x" |
| UploadMiddleware.Middleware | src/app/api/uploadthing/core.ts:9-21 | no session throws "Unauthorized"; a listed user yields its id; anyone else throws "Forbidden" |
| UploadMiddleware.MiddlewareAgreesWithProtectApi | src/app/api/uploadthing/core.ts:9-21 | the middleware admits exactly whom the API gate admits, and rejects with the same word |
| UploadMiddleware.IdIsNotChecked | src/app/api/uploadthing/core.ts:14-19 | the returned user id need not be on any list |
| UploadServer.DeleteImage | src/utils/uploadthing-server.ts:12-25 | an empty URL gives false with no request; otherwise one request for the extracted key, whose success is the result, and a throw gives false |
| UploadServer.ExtractKeyIsLastSegment | src/utils/uploadthing-server.ts:16 | the key is a suffix containing no `/` and is what follows the last `/` |
| UploadServer.ExtractKeyOfBareKey | src/utils/uploadthing-server.ts:16 | a URL without `/` is its own key |
| UploadServer.TrailingSlashGivesEmptyKey | src/utils/uploadthing-server.ts:16-18 | a URL ending in `/` requests deletion of the empty key |
| UploadServer.KeyOfFileUrl | src/utils/uploadthing-server.ts:16 | "https://utfs.io/f/abc" has key "abc" |
| Entries.AddEntryAppends | src/components/dashboard-posts.tsx:329-334 | an accepted entry is appended trimmed after the unchanged list; anything else leaves the list as it was |
| Entries.BlankOrPresentRejected | src/components/dashboard-posts.tsx:330 | a blank input or one already listed once trimmed is not added |
| Entries.AddedEntryIsTrimmed | src/components/dashboard-posts.tsx:329 | the added entry is non-empty with no edge white space |
| Entries.AddEntryKeepsNoDuplicates | src/components/dashboard/project-editor.tsx:128-136 | a duplicate-free list stays duplicate-free |
| Entries.CaseSensitiveDuplicates | src/components/dashboard-posts.tsx:330 | "js" is added beside "JS" |
| Entries.PaddedDuplicateRejected | src/components/dashboard-posts.tsx:329-330 | " JS " is not added beside "JS" |
| Entries.RemoveEntryKeepsOthers | src/components/dashboard/project-editor.tsx:138-143 | removal drops every equal entry, keeps the others in order, and keeps duplicate-freedom |
| Uploads.ImageAfterChange | src/components/dashboard-posts.tsx:99-105 | no file list clears the selection; a non-empty one selects its first file with its preview URL; an empty one changes nothing |
| Uploads.SubmittedImageUrl | src/components/dashboard-posts.tsx:131-137 | with no picked file the URL is ""; otherwise the first stored file's URL, and it fails iff the upload throws or stores nothing |
| Uploads.LoadedImageNotResubmitted | src/components/dashboard-posts.tsx:83 | a loaded image, which has no file, is submitted as "" |
| Uploads.PickedImageUploaded | src/components/dashboard-posts.tsx:131-137 | a freshly picked file is submitted with its stored URL |
| PostEditor.MergeErrorsOverwritesReported | src/components/dashboard-posts.tsx:149-158 | merged errors cover the old and reported fields, keep unreported fields' errors and show each field's last issue |
| PostEditor.Editor.constructor | src/components/dashboard-posts.tsx:40-52 | an empty draft, every field error "", no image |
| PostEditor.Editor.Load | src/components/dashboard-posts.tsx:76-83 | the loaded post's fields are copied and its image becomes the preview |
| PostEditor.Editor.ImageChange | src/components/dashboard-posts.tsx:99-105 | the selection is the one the image change rule gives |
| PostEditor.Editor.RemoveImage | src/components/dashboard-posts.tsx:395 | the selection is dropped, and a later submit sends "" as the image URL whatever the upload service would answer |
| PostEditor.Editor.UploadComplete | src/components/dashboard-posts.tsx:57-68 | a non-empty first stored URL becomes the featured image |
| PostEditor.Editor.ContentChange | src/components/dashboard-posts.tsx:107-123 | the value is stored; that field's error is its first issue's message or "" |
| PostEditor.Editor.PublishedChange | src/components/dashboard-posts.tsx:306-307 | the published flag is stored |
| PostEditor.Editor.AddTag | src/components/dashboard-posts.tsx:326-338 | the tags become the add-entry result; the input clears iff the entry was accepted; duplicate-freedom is kept |
| PostEditor.Editor.RemoveTag | src/components/dashboard-posts.tsx:357-361 | every equal tag is removed; duplicate-freedom is kept |
| PostEditor.Editor.Submit | src/components/dashboard-posts.tsx:125-185 | an upload failure sends nothing; an invalid body merges its errors and sends nothing; a valid one is sent by PUT to the post's path when editing, else by POST |
| ProjectEditor.Form.constructor | src/components/dashboard/project-editor.tsx:26-37 | every field empty, no tools, no image |
| ProjectEditor.Form.Load | src/components/dashboard/project-editor.tsx:71-74 | the project replaces the form; a non-empty image URL becomes the preview |
| ProjectEditor.Form.SetCurrentTool | src/components/dashboard/project-editor.tsx:219 | the typed tool is stored |
| ProjectEditor.Form.AddTool | src/components/dashboard/project-editor.tsx:128-136 | the tools become the add-entry result; the input clears iff the tool was accepted; duplicate-freedom is kept |
| ProjectEditor.Form.RemoveTool | src/components/dashboard/project-editor.tsx:138-143 | every equal tool is removed; duplicate-freedom is kept |
| ProjectEditor.Form.KeyPress | src/components/dashboard/project-editor.tsx:145-150 | Enter adds the current tool; any other key changes nothing |
| ProjectEditor.Form.ImageChange | src/components/dashboard/project-editor.tsx:120-126 | the selection is the one the image change rule gives |
| ProjectEditor.Form.RemoveImage | src/components/dashboard/project-editor.tsx:310 | the selection is dropped, and a later submit sends "" as the image URL whatever the upload service would answer |
| ProjectEditor.Form.UploadComplete | src/components/dashboard/project-editor.tsx:41-52 | a non-empty first stored URL becomes the image URL |
| ProjectEditor.Form.Submit | src/components/dashboard/project-editor.tsx:90-118 | an upload failure makes no call; otherwise the form with the submitted image URL goes to update when editing, else to create |
| Search.EmptySearchMatches | src/app/dashboard/posts/page.tsx:135-140 | the empty search matches every field |
| Search.MatchesIgnoresCase | src/app/dashboard/posts/page.tsx:135-140 | lower-casing either side does not change a match |
| Search.MatchesAt | src/app/dashboard/posts/page.tsx:135-140 | a match is an occurrence of the lower-cased search in the lower-cased field |
| Badges.BadgeRowOf | src/app/dashboard/posts/page.tsx:241-254 | at most three entries shown, as a prefix; a "+n" badge iff more than three, and shown plus hidden is the total |
| Badges.OverflowBoundary | src/app/dashboard/projects/page.tsx:219-232 | three entries give no extra badge; four give "+1" |
| PostsPage.FilteredPostsSpec | src/app/dashboard/posts/page.tsx:135-140 | a post is shown iff the search matches its title, slug or a tag, in the original order |
| PostsPage.EmptySearchShowsAll | src/app/dashboard/posts/page.tsx:135-140 | the empty search shows every post |
| PostsPage.WithoutPostSpec | src/app/dashboard/posts/page.tsx:95 | a delete removes exactly the posts with that id, keeping the others in order |
| PostsPage.ReplacePost | src/app/dashboard/posts/page.tsx:124 | the list keeps its length |
| PostsPage.ReplacePostSpec | src/app/dashboard/posts/page.tsx:124 | only the positions holding that id change, each to the server's post |
| PostsPage.Page.constructor | src/app/dashboard/posts/page.tsx:49-51 | no posts, nothing processing |
| PostsPage.Page.Loaded | src/app/dashboard/posts/page.tsx:54-72 | the fetched posts are shown |
| PostsPage.Page.BeginDelete | src/app/dashboard/posts/page.tsx:80-85 | a declined confirmation stops; otherwise the post is marked processing |
| PostsPage.Page.FinishDelete | src/app/dashboard/posts/page.tsx:90-103 | an ok response removes the post; processing is cleared either way |
| PostsPage.Page.BeginToggle | src/app/dashboard/posts/page.tsx:107-119 | the request asks for the opposite published flag; the post is marked processing |
| PostsPage.Page.FinishToggle | src/app/dashboard/posts/page.tsx:124-132 | the server's post replaces the old one; processing is cleared either way |
| ProjectsPage.FilteredProjectsSpec | src/app/dashboard/projects/page.tsx:112-120 | a project is shown iff the search matches one of its searched fields, in the original order |
| ProjectsPage.EmptySearchShowsAll | src/app/dashboard/projects/page.tsx:112-120 | the empty search shows every project |
| ProjectsPage.WithoutProjectSpec | src/app/dashboard/projects/page.tsx:102 | a delete removes exactly the projects with that id, keeping the others in order |
| ProjectsPage.Page.constructor | src/app/dashboard/projects/page.tsx:53-55 | no projects, nothing processing |
| ProjectsPage.Page.Loaded | src/app/dashboard/projects/page.tsx:58-75 | the fetched projects are shown |
| ProjectsPage.Page.BeginDelete | src/app/dashboard/projects/page.tsx:83-92 | a declined confirmation stops; otherwise the project is marked processing |
| ProjectsPage.Page.FinishDelete | src/app/dashboard/projects/page.tsx:97-109 | an ok response removes the project; processing is cleared either way |
| MessagesPage.FilteredMessagesSpec | src/app/dashboard/messages/page.tsx:60-65 | a message is shown iff the search matches its e-mail, its name when present or its text, in the original order |
| MessagesPage.EmptySearchShowsAll | src/app/dashboard/messages/page.tsx:60-65 | the empty search shows every message |
| MessagesPage.MarkedRead | src/app/dashboard/messages/page.tsx:73-77 | the list keeps its length |
| MessagesPage.MarkedReadSpec | src/app/dashboard/messages/page.tsx:73-77 | only the messages with that id change, and only in their read flag |
| MessagesPage.MarkedReadIdempotent | src/app/dashboard/messages/page.tsx:73-77 | marking read twice is marking read once |
| MessagesPage.MarkReadOfReadIsNoOp | src/app/dashboard/messages/page.tsx:188 | marking an already read message changes nothing, so its disabled button loses nothing |
| MessagesPage.WithoutMessageSpec | src/app/dashboard/messages/page.tsx:99-101 | a delete removes exactly the messages with that id, keeping the others in order |
| MessagesPage.Page.constructor | src/app/dashboard/messages/page.tsx:36 | no messages |
| MessagesPage.Page.Loaded | src/app/dashboard/messages/page.tsx:39-58 | the fetched messages are shown |
| MessagesPage.Page.MarkAsRead | src/app/dashboard/messages/page.tsx:67-87 | an ok response marks the message read; otherwise nothing changes |
| MessagesPage.Page.DeleteMessage | src/app/dashboard/messages/page.tsx:89-111 | a confirmed, ok delete removes the message; otherwise nothing changes |
| Rubik.FaceColours | src/components/rubik-s-cube.tsx:149-174 | six slots, one per face direction |
| Rubik.InitFaces | src/components/rubik-s-cube.tsx:149-174 | the loop colours exactly the slots facing outwards, the rest stay inner |
| Rubik.ColouredSlotCount | src/components/rubik-s-cube.tsx:156-171 | a cubie shows one colour per outer coordinate: 3 at a corner, 2 on an edge, 1 at a centre, 0 at the core |
| Rubik.OppositeSlotsExclusive | src/components/rubik-s-cube.tsx:156-171 | opposite slots are never both coloured |
| Rubik.ParseCoordText | src/components/rubik-s-cube.tsx:106 | a coordinate's text reads back as that coordinate |
| Rubik.DecodeNameRoundTrip | src/components/rubik-s-cube.tsx:106 | a cubie name decodes to the coordinates it was built from |
| Rubik.NamesDistinct | src/components/rubik-s-cube.tsx:106 | distinct positions have distinct names |
| Rubik.CoordsAt | src/components/rubik-s-cube.tsx:94-96 | the i-th creation step is a position of the cube |
| Rubik.IndexOfCoords | src/components/rubik-s-cube.tsx:94-96 | the position (x, y, z) is created at step 9(x+1)+3(y+1)+(z+1) |
| Rubik.InitCubes | src/components/rubik-s-cube.tsx:94-112 | the triple loop creates 27 cubies, the i-th with the i-th position's name, spread position and colours |
| Rubik.CoordsDetermineIndex | src/components/rubik-s-cube.tsx:94-96 | the creation step is determined by its position |
| Rubik.CubiesCoverCube | src/components/rubik-s-cube.tsx:94-112 | every position of the cube gets a cubie |
| Rubik.CubieNamesDistinct | src/components/rubik-s-cube.tsx:106 | no two cubies share a name |
| Rubik.FaceOf | src/components/rubik-s-cube.tsx:296-360 | the +x face is chosen iff x exceeds 1.5; no face iff the point is inside the cube's bounds |
| Rubik.RecognizeDirectionSpec | src/components/rubik-s-cube.tsx:287-363 | no rotation iff no face or neither in-plane movement exceeds the limit; a rotation turns about a non-normal axis by +1 or -1 |
| Rubik.PosXAxisChoice | src/components/rubik-s-cube.tsx:300-310 | on the +x face the larger in-plane movement picks the axis; a tie goes to the y axis |
| Rubik.OppositeFacesOppositeDirections | src/components/rubik-s-cube.tsx:300-360 | opposite faces pick the same axis and the opposite direction |
| Rubik.FacePriority | src/components/rubik-s-cube.tsx:296-360 | faces are tested in order, so +x wins over +y |
| Greetings.GreetingAsWritten | src/components/greetings.tsx:9-13 | Morning iff 4 < hour < 12; Afternoon iff 12 < hour < 16 |
| Greetings.GreetingRanges | src/components/greetings.tsx:9-13 | hours 5-11 are Morning, 13-15 Afternoon, and 0-4 and 16-23 Evening |
| Greetings.NoonIsEvening | src/components/greetings.tsx:9-13 | 11 is Morning, 12 is Evening, 13 is Afternoon |
| Greetings.GreetingIntended | src/components/greetings.tsx:9-13 | Morning iff 4 < hour < 12; Afternoon iff 12 <= hour < 16 |
| Greetings.IntendedDiffersOnlyAtNoon | src/components/greetings.tsx:9-13 | the corrected rule differs from the written one at hour 12 only, where it gives Afternoon |
| Greetings.IntendedDaytimeContiguous | src/components/greetings.tsx:9-13 | under the corrected rule every hour from 5 to 15 is Morning or Afternoon |

## Left out

- `marked` and DOMPurify are parameters. Their internals, and how a per-call `ALLOWED_TAGS` combines with the installed configuration, are not modelled.
- SanitizePlainText: whether DOMPurify honours the per-call `ALLOWED_TAGS: []` once `setConfig` has installed the blog configuration, or ignores it and keeps the blog allow-list, is the library's behaviour and is not stated; the model states only what reaches DOMPurify and with which options.
- The session lookup (`auth()`) is a parameter. An unset allow-list variable, which would throw at module load, is not modelled.
- The upload middleware imports allow-list constants that `src/lib/api-auth.ts` does not export, so both lists are parameters of the middleware.
- The e-mail format test of the validation library is a predicate parameter. Its default messages for a wrong type, a bad e-mail and an empty string are stand-in constants.
- Only the first path element of a validation issue is used. A numeric path element is held as its string key.
- The post schema of the post editor (`createPostSchema`) is not shown, so the editor takes the validation as a parameter.
- The network is not modelled:
  - Each fetch is represented by its outcome: ok, not ok, or a reply.
  - Toasts, `confirm`, router navigation and console logging are left out. A declined `confirm` is a boolean.
- Loading flags and spinners are not modelled.
- React's asynchronous batching, stale closures and interleaving of handlers are not modelled. Each update is applied to the current state, as the functional updaters do. The tag add tests `post.tags` at render time; the model tests the current tags.
- In the project form, the plain field `onChange` handlers only copy a value. The model gives the tool input's handler (`SetCurrentTool`) and leaves the rest out.
- Absent values are `""` in the editors: the optional project URLs, and the post's featured image, which the new draft lacks and a loaded post may lack. The difference between `null`, `undefined` and `""` is not modelled; `PostEditor.Editor.Submit` always sends the submitted image URL.
- The badge row's text is not modelled: `Badges.BadgeRowOf` gives the hidden count, not the string "+n".
- `Text.ToLower` lowers ASCII letters only. JavaScript's full Unicode case mapping and UTF-16 code-unit lengths are not modelled.
- Rubik's cube: Three.js geometry, materials, rendering, mouse picking and the rotation animation are left out. The drag rule takes the projected movement and its magnitudes as parameters.
- The greeting's clock reading (`new Date().getHours()`) is a parameter.

## Findings

| source | as written | input that shows it | evidently intended | confidence | as-written member | corrected member |
|---|---|---|---|---|---|---|
| src/components/greetings.tsx:9-13 | `time > 4 && time < 12` then `time > 12 && time < 16`: both bounds exclude 12 | hour 12 gives "Evening" between "Morning" at 11 and "Afternoon" at 13 | noon counts as afternoon: `time >= 12 && time < 16` | not executed | Greetings.NoonIsEvening | Greetings.IntendedDaytimeContiguous |
