# Reimagine: a Dafny model of the image-editing core

The application is a single page. The user uploads a photo, writes an instruction (or picks
a preset), and sends both to Google's `gemini-2.5-flash-image` model. The reply is shown as an
edited image or as an error message. Three pieces of it hold logic, and each is modelled here:

- **The service layer** (`services/gemini.ts`), in `gemini.dfy`, module `Gemini`. It models
  `editImageWithGemini`: the API-key check, the request it builds, the scan of the reply's parts
  for the first image, the text fallback and the rewrapping of errors. It also models the
  data-URL strip inside `fileToBase64`. `EditOutcome` is a reference definition of what the call
  resolves to. `EditImageWithGemini` is the code as written, with its `for ... break` loop in
  `ScanParts`, and is proved equal to `EditOutcome`.
- **The page's workflow** (`App.tsx`), in `app.dfy`, module `App`. The class `App` holds the
  page's `useState` fields. Each handler is a method: image selected, reset, the start of
  generation, its success and failure continuations, and a preset click. `HandleGenerate` runs
  the whole asynchronous handler when no other event interleaves. Predicates state which view
  is shown and which controls are enabled. Four client methods replay runs of the page: a late
  failure and a late success after a reset, a stale error left in the Complete state, and a
  retry from the Error state.
- **The upload area** (`components/ImageUploader.tsx`), in `image_uploader.dfy`, module
  `ImageUploader`. It models the acceptance rule for a file list and the `isDragging` highlight.

Shared pieces: `wrappers.dfy` (`Option` for `undefined`/`null`, `Result` for a value or a thrown
`Error`'s message), `types.dfy` (the types of `types.ts` and the browser `File`), `strings.dfy`
(JavaScript's `trim` and one-character `split`).

## How the model reads the source

- JavaScript truthiness is written out. `Truthy(s)` means "present and non-empty". An empty
  `parts` array is truthy, so it does not give "No content generated from the model.". An image
  part whose `data` is empty or missing stops the scan and counts as no image, so a later image
  part is never tried. `find(p => p.text)` skips empty texts.
- A reply part is a record with two optional fields, `inlineData` and `text`, because a part may
  carry both and the code tests each field on its own.
- `result.split(',')[1]` gives the text between the first and the second comma, not all the text
  after the first comma. When there is no comma it gives `undefined`, which is `None` here. For a
  base64 data URL (section 3 of RFC 2397) the payload uses the base64 alphabet (section 4 of
  RFC 4648), which has no comma. So the two readings agree there: `StripBase64DataUrl`.
- The model call is not modelled. Its reply is the input `reply`: either a response, or an error
  thrown with some message. The empty message stands for a thrown value with no `message`.
  `editImageWithGemini` returns the request it would send. That request is `None` exactly when
  the key is empty, which reflects that the check comes before any call.
- A failed read rejects with an event that has no `message`, so the page shows
  "An unexpected error occurred while processing the image.". `HandleGenerate` states this.
- Nothing in the page guards the continuations of `handleGenerate`, and the reset button stays
  enabled while an edit is in flight. A late reply after a reset therefore moves Idle to Complete
  or Error with no image held. `LateFailureAfterReset` and `LateSuccessAfterReset` exhibit this.
  The object invariant `Valid` is chosen so that it still holds in those runs.
- The preset texts in `Presets` and `HighFidelityPromptText` equal those of App.tsx:13-28 and
  App.tsx:181.

## Model

| member | source | states |
|---|---|---|
| Strings.Trim | App.tsx:65 | `trim()` yields the empty string exactly when every character is JavaScript white space or a line terminator |
| Strings.TrimStart | App.tsx:65 | the result is a suffix of the input; everything dropped is white space; the result is empty or starts with a non-space |
| Strings.TrimEnd | App.tsx:201 | the result is a prefix of the input; everything dropped is white space; the result is empty or ends with a non-space |
| Strings.Split | services/gemini.ts:19 | `split(',')` yields at least one piece, no piece contains the separator, and the first piece runs up to the first separator or the end |
| Strings.JoinSplit | services/gemini.ts:19 | joining the pieces of `split` with the separator gives back the original string |
| Strings.SplitSingleIffNoSep | services/gemini.ts:19 | there is more than one piece exactly when the separator occurs |
| Strings.SplitNoSep | services/gemini.ts:19 | a separator-free string splits into itself alone |
| Strings.SplitAtFirst | services/gemini.ts:19 | the first piece ends at the first separator; the rest are the pieces of what follows |
| Gemini.StripDataUrlPrefix | services/gemini.ts:18-19 | the strip is undefined exactly when there is no comma; otherwise it is the comma-free text that starts just after the first comma and runs to the next comma or the end |
| Gemini.SecondPieceFollowsFirstComma | services/gemini.ts:19 | when there is a comma the first piece ends at the first comma, and the second piece starts just after it and runs to the next comma or the end |
| Gemini.StripBase64DataUrl | services/gemini.ts:18-19 | for `data:<m>;base64,<b>` with comma-free `m` and base64 `b`, the strip returns exactly `b` |
| Gemini.ApiKeyFromEnv | services/gemini.ts:4 | the key is empty exactly when the variable is unset or empty, and is the variable's value otherwise |
| Gemini.IndexWhere | services/gemini.ts:69-83 | returns the index of the first element satisfying the test, with none before it; absent exactly when none satisfies it |
| Gemini.IndexWhereAppend | services/gemini.ts:69-79 | appending elements never moves an existing first match |
| Gemini.ResponseParts | services/gemini.ts:60 | the parts exist exactly when there is a first candidate with content and parts (an empty candidate list counts as none); they are that candidate's parts |
| Gemini.MimeOrDefault | services/gemini.ts:67-76 | the media type is the part's own when non-empty and `image/png` otherwise; it is never empty |
| Gemini.FirstText | services/gemini.ts:83 | the text found is non-empty and belongs to the first part whose text is non-empty; none is found only when no part has non-empty text |
| Gemini.NoImageError | services/gemini.ts:81-87 | the no-image path always fails |
| Gemini.Rewrap | services/gemini.ts:95-97 | the re-raised message equals the caught one when that is non-empty, is the Gemini fallback otherwise, and is never empty |
| Gemini.PartsOutcome | services/gemini.ts:66-93 | a success has non-empty data and a non-empty media type; every failure is the no-image error |
| Gemini.EditOutcome | services/gemini.ts:37-97 | a success needs a key, a response and parts, and has non-empty data and media type; every error message is non-empty |
| Gemini.ScanParts | services/gemini.ts:66-79 | the loop returns the data and the defaulted media type of the first part with inline data, or null data and `image/png` when no part has it |
| Gemini.EditImageWithGemini | services/gemini.ts:32-99 | no request is made exactly when the key is empty; the request names `gemini-2.5-flash-image` and has two parts in order, the caller's image data and media type unchanged then the prompt text; the result equals the reference outcome `EditOutcome` |
| Gemini.MissingKeyPrecedesCall | services/gemini.ts:4-39 | with `API_KEY` unset or empty the result is the configuration error, whatever the model would reply |
| Gemini.NoContentIffPartsMissing | services/gemini.ts:60-64 | "No content generated from the model." occurs exactly when the parts are missing; an empty parts array gives "Model did not return a valid image." |
| Gemini.FirstInlinePartDecides | services/gemini.ts:69-93 | the first part with inline data decides: success with its data and media type if its data is non-empty, the no-image error otherwise |
| Gemini.LaterPartsIgnoredOnSuccess | services/gemini.ts:69-79 | parts appended after a successful scan never change the result |
| Gemini.SuccessComesFromFirstImagePart | services/gemini.ts:66-93 | a success carries the first image part's non-empty data and a non-empty media type, that part's own or `image/png` |
| Gemini.FailureMessageChoice | services/gemini.ts:81-87 | without a usable image the error is the text prefix plus the first non-empty text, or the generic message when there is no such text |
| Gemini.WorkedCases | services/gemini.ts:60-93 | a refusal text, a JPEG part, an image without media type after a note, no candidates, no parts, an empty image before a good one, an empty text before a real one, and two texts (the first is reported) each give the stated result |
| App.ResultImageUri | App.tsx:74 | the result URI, stripped by the rule of services/gemini.ts:19, gives back the result's data whenever the media type has no comma and the data is base64 |
| App.FailureMessage | App.tsx:78 | the shown error is the failure's message when non-empty, the page's fallback otherwise, never empty |
| App.App.constructor | App.tsx:34-39 | the page starts Idle with no image and empty preview, result, prompt and error |
| App.App.ImageSelected | App.tsx:48-53 | stores the file and its preview, moves to ReadyToEdit, clears the error; result and prompt are untouched |
| App.App.Reset | App.tsx:55-62 | moves to Idle and clears image, preview, result, prompt and error |
| App.App.GenerateRequested | App.tsx:64-68 | without an image or with a blank prompt nothing changes and no call is made; otherwise the state becomes Processing, the error is cleared, and the call gets the held file and the untrimmed prompt; nothing else changes |
| App.App.GenerateSucceeded | App.tsx:74-75 | sets the result image to the result's data URL and the state to Complete from any state; prompt, image and error are untouched |
| App.App.GenerateFailed | App.tsx:78-79 | sets the error to the message or the page's fallback and the state to Error from any state; the result image is untouched |
| App.App.PresetClicked | App.tsx:83-85 | sets the prompt to the given text verbatim and changes nothing else |
| App.App.CanGenerate | App.tsx:65 | the guard passes exactly when an image is held and the prompt is not all white space |
| App.App.HandleGenerate | App.tsx:64-81 | a guarded-out click changes nothing; a failed read ends in Error with the page's fallback; otherwise the page ends in Complete with the result URI or in Error with the service's message; with an empty key no request is made, and with a key the request names the model and has the stripped payload with the file's type, then the untrimmed prompt |
| App.App.UploaderShown | App.tsx:93 | the uploader is shown only when no image is held and no error is set |
| App.App.EditPanelShown | App.tsx:107 | outside the Error state the edit panel is shown only with an image held |
| App.App.ResultShown | App.tsx:225 | when the result viewer is shown neither the uploader nor the edit panel is |
| App.App.SubmitEnabled | App.tsx:201 | submit is enabled exactly when the prompt is not all white space and the state is not Processing |
| App.App.PromptInputsEnabled | App.tsx:159-182 | when the textarea and presets are disabled, submit is disabled too, an image is held and no error is set |
| App.App.ErrorShown | App.tsx:107-190 | the error banner, drawn inside the edit panel when the error is not empty, is shown exactly in the Error state |
| App.ExactlyOneView | App.tsx:93-225 | exactly one of uploader, edit panel and result viewer is shown |
| App.EnabledSubmitPassesGuard | App.tsx:201 | an enabled submit button in the edit panel means ReadyToEdit or Error; in ReadyToEdit the guard passes, and in Error it passes exactly when an image is still held |
| App.PresetsAreNotBlank | App.tsx:10-31 | every preset text is not blank, so choosing one enables submission |
| App.HighFidelityPresetIsNotBlank | App.tsx:181 | the high-fidelity preset's text is not blank |
| App.LateFailureAfterReset | App.tsx:55-80 | a failure arriving after a reset leaves the page in Error with no image, the failure's message and submission disabled |
| App.LateSuccessAfterReset | App.tsx:55-75 | a success arriving after a reset leaves the page in Complete with no image and the result URI |
| App.StaleErrorHiddenInComplete | App.tsx:64-225 | a failure of a second edit followed by the late success of a first leaves the page in Complete with the stale message, which the banner does not draw |
| App.RetryFromError | App.tsx:64-107 | after a failure the edit panel is shown with submit enabled, and submitting again starts a new call with the same file and prompt |
| ImageUploader.HandleFiles | components/ImageUploader.tsx:35-42 | the file is passed on exactly when the list is non-empty and the first file's type starts with `image/`, and it is that first file; otherwise it is rejected |
| ImageUploader.OnlyFirstFileExamined | components/ImageUploader.tsx:36 | files after the first never change the decision |
| ImageUploader.ForwardFiles | components/ImageUploader.tsx:24-32 | a missing or empty file list is ignored; any other list is decided by `handleFiles` |
| ImageUploader.Uploader.constructor | components/ImageUploader.tsx:9 | the area starts without the drag highlight |
| ImageUploader.Uploader.DragOver | components/ImageUploader.tsx:12-15 | drag-over turns the highlight on |
| ImageUploader.Uploader.DragLeave | components/ImageUploader.tsx:17-19 | drag-leave turns the highlight off |
| ImageUploader.Uploader.Drop | components/ImageUploader.tsx:21-27 | a drop turns the highlight off and forwards a non-empty list to `handleFiles` |
| ImageUploader.Uploader.FileInput | components/ImageUploader.tsx:29-33 | a file-input change forwards a non-empty list to `handleFiles` and leaves the highlight alone |
| ImageUploader.DragThenDrop | components/ImageUploader.tsx:12-27 | drag-over then drop of a PNG shows the highlight in between, clears it after, and passes the file on |

## Left out

- The GoogleGenAI client and the network call (services/gemini.ts:1, 7, 42). They are a
  foreign library; the reply is an input.
- The FileReader and the base64 encoding of the file's bytes (services/gemini.ts:12-24).
  They are browser I/O; only the strip applied to the reader's result is modelled.
- App.App.HandleGenerate: requires the reader's data URL to contain a comma. The browser's
  `readAsDataURL` always produces one; the path where `split` gives `undefined` and that value
  reaches the SDK is not modelled.
- Object-URL creation and revocation (App.tsx:42-46, 50): a browser API. `ImageSelected`
  takes the created URL as a parameter.
- `console.error` (services/gemini.ts:96, App.tsx:77) and `alert` (components/ImageUploader.tsx:40):
  side effects. The alert is the `Rejected` outcome.
- The textarea's `onChange` (App.tsx:156) performs the same single update as the preset
  click, so the model has one method, `PresetClicked`, for both.
- The disabled attributes do not stop a handler from being called in the model. They are the
  predicates `SubmitEnabled` and `PromptInputsEnabled`. The views are `UploaderShown`,
  `EditPanelShown` and `ResultShown`.
- Clicking the upload area to open the file picker (components/ImageUploader.tsx:44-46), and the
  picker's `accept="image/*"` filter: DOM behaviour. `handleFiles` checks the type regardless.
- components/ResultViewer.tsx: view and modal toggles are presentation. The download is DOM work
  with a clock-based file name. components/Header.tsx and components/Spinner.tsx are static markup.
- JSX rendering and styling beyond the show and disable conditions above.
- Concurrency: the asynchronous handler is split into events that happen one at a time. No
  property about interleaved in-flight requests is stated beyond the late-reply runs.
- `AppState.Uploading` (types.ts:9) is declared but never entered; `Valid` excludes it.
- The preset's `label` field is named `title` in the model, because `label` is a Dafny keyword.
