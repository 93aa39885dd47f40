/** The top-level page (App.tsx): the workflow state and its event handlers, the conditions
    that show, hide and disable its controls, and the preset catalogue. */
module App {
  import opened Wrappers
  import opened Types
  import opened Strings
  import opened Gemini

  /** Shown when a failure carries no message (App.tsx:78). */
  const UnexpectedErrorMessage := "An unexpected error occurred while processing the image."

  /** The preset buttons (App.tsx:10-31); each text is the source's text, character for character. */
  const Presets: seq<PresetPrompt> := [
    PresetPrompt("High Quality Portrait",
      "Enhance " + "this image to high quality DSLR portrait, improve skin texture, hair details, lighting, strict consistency with original face and pose.",
      "✨"),
    PresetPrompt("Cyberpunk Vibe",
      "Give " + "this image a futuristic cyberpunk neon aesthetic with blue and pink lighting, while keeping the subject recognizable.",
      "🌃"),
    PresetPrompt("Professional Studio",
      "Change " + "background to a clean professional dark studio backdrop, soft rim lighting, high contrast.",
      "📸"),
    PresetPrompt("Sketch Style",
      "Convert " + "this image into a high detail pencil sketch drawing.",
      "✏️")
  ]

  /** The text of the separate high-fidelity preset button (App.tsx:181), unchanged. */
  const HighFidelityPromptText :=
    "첨부 " + "사진의 얼굴, 표정, 헤어, 포즈, 형태 엄격히 일관성을 유지하면서 다음의 명령을 수행, Ensure face, emotion, camera angle, pose strict consistency with the reference image[no change]. 화질개선, 옷질감 피부결, 눈썹, 머리결, 동공반사, 디테일업, 고화질 dslr, ai느낌이 아닌 실제 사람 사진"

  /** The image shown after success: `data:${mimeType};base64,${data}` (App.tsx:74). When the
      media type has no comma and the data is base64, the strip of services/gemini.ts:19 gives
      the data back. */
  function ResultImageUri(result: EditedImage): (uri: string)
    ensures ',' !in result.mimeType && IsBase64(result.data) ==> StripDataUrlPrefix(uri) == Some(result.data)
  {
    var uri := Base64DataUrl(result.mimeType, result.data);
    if ',' !in result.mimeType && IsBase64(result.data) then
      StripBase64DataUrl(result.mimeType, result.data);
      uri
    else uri
  }

  /** `err.message || 'An unexpected error occurred while processing the image.'` (App.tsx:78). */
  function FailureMessage(message: string): (r: string)
    ensures r != ""
    ensures message != "" ==> r == message
    ensures message == "" ==> r == UnexpectedErrorMessage
  {
    if message != "" then message else UnexpectedErrorMessage
  }

  /** The arguments of one edit attempt: the file to encode and the prompt, sent untrimmed;
      the file's type is the media type of the request (App.tsx:71-72). */
  datatype EditCall = EditCall(image: File, prompt: string)

  /** The state of the page (App.tsx:34-39). */
  class App {
    var state: AppState
    var originalImage: Option<File>
    var originalImagePreview: string
    var resultImage: string
    var prompt: string
    var error: string

    /** `Uploading` is never entered; Idle holds no image; the ready and processing states
        always hold one. Complete and Error may lack one: a late reply after a reset lands
        there. The error is empty in Idle, ReadyToEdit and Processing and non-empty in Error. */
    ghost predicate Valid()
      reads this
    {
      && state != Uploading
      && (state == Idle ==> originalImage.None?)
      && (state == ReadyToEdit || state == Processing ==> originalImage.Some?)
      && (state == Idle || state == ReadyToEdit || state == Processing ==> error == "")
      && (state == Error ==> error != "")
    }

    constructor ()
      ensures Valid()
      ensures state == Idle && originalImage == None
      ensures originalImagePreview == "" && resultImage == "" && prompt == "" && error == ""
    {
      state := Idle;
      originalImage := None;
      originalImagePreview := "";
      resultImage := "";
      prompt := "";
      error := "";
    }

    /** `handleImageSelected` (App.tsx:48-53). `previewUrl` is the object URL the browser made. */
    method ImageSelected(file: File, previewUrl: string)
      requires Valid()
      modifies this
      ensures Valid()
      ensures state == ReadyToEdit && originalImage == Some(file) && originalImagePreview == previewUrl
      ensures error == ""
      ensures resultImage == old(resultImage) && prompt == old(prompt)
    {
      originalImage := Some(file);
      originalImagePreview := previewUrl;
      state := ReadyToEdit;
      error := "";
    }

    /** `handleReset` (App.tsx:55-62). */
    method Reset()
      requires Valid()
      modifies this
      ensures Valid()
      ensures state == Idle && originalImage == None
      ensures originalImagePreview == "" && resultImage == "" && prompt == "" && error == ""
    {
      state := Idle;
      originalImage := None;
      originalImagePreview := "";
      resultImage := "";
      prompt := "";
      error := "";
    }

    /** The guard of `handleGenerate`: an image and a prompt that is not blank (App.tsx:65). */
    predicate CanGenerate()
      reads this
      ensures CanGenerate() <==> originalImage.Some? && !IsBlank(prompt)
    {
      originalImage.Some? && Trim(prompt) != ""
    }

    /** The synchronous start of `handleGenerate` (App.tsx:65-68): when the guard passes, the
        state becomes Processing and the error is cleared before anything is awaited, and the
        call to make is returned; otherwise nothing changes. */
    method GenerateRequested() returns (call: Option<EditCall>)
      requires Valid()
      modifies this
      ensures Valid()
      ensures call.Some? <==> old(CanGenerate())
      ensures call.Some? ==> call.value == EditCall(old(originalImage).value, old(prompt))
      ensures state == (if call.Some? then Processing else old(state))
      ensures error == (if call.Some? then "" else old(error))
      ensures originalImage == old(originalImage) && originalImagePreview == old(originalImagePreview)
      ensures resultImage == old(resultImage) && prompt == old(prompt)
    {
      if originalImage.None? || Trim(prompt) == "" {
        return None;
      }
      state := Processing;
      error := "";
      call := Some(EditCall(originalImage.value, prompt));
    }

    /** The success continuation (App.tsx:74-75). Nothing checks the current state, so a reply
        arriving after a reset still moves the page to Complete. */
    method GenerateSucceeded(result: EditedImage)
      requires Valid()
      modifies this
      ensures Valid()
      ensures resultImage == ResultImageUri(result) && state == Complete
      ensures originalImage == old(originalImage) && originalImagePreview == old(originalImagePreview)
      ensures prompt == old(prompt) && error == old(error)
    {
      resultImage := ResultImageUri(result);
      state := Complete;
    }

    /** The failure continuation (App.tsx:78-79), unguarded like the success one. */
    method GenerateFailed(message: string)
      requires Valid()
      modifies this
      ensures Valid()
      ensures error == FailureMessage(message) && state == Error
      ensures originalImage == old(originalImage) && originalImagePreview == old(originalImagePreview)
      ensures prompt == old(prompt) && resultImage == old(resultImage)
    {
      error := FailureMessage(message);
      state := Error;
    }

    /** `handlePresetClick` (App.tsx:83-85); the textarea's `onChange` (App.tsx:156) makes the
        same single update. */
    method PresetClicked(presetText: string)
      requires Valid()
      modifies this
      ensures Valid()
      ensures prompt == presetText
      ensures state == old(state) && originalImage == old(originalImage)
      ensures originalImagePreview == old(originalImagePreview)
      ensures resultImage == old(resultImage) && error == old(error)
    {
      prompt := presetText;
    }

    /** The whole of `handleGenerate` (App.tsx:64-81) when nothing else happens while it is
        suspended. `readerResult` is what the FileReader produced (None: it failed, and the
        rejection carries no message); `reply` is what the model call produced. */
    method HandleGenerate(apiKey: string, readerResult: Option<string>, reply: Reply)
      returns (request: Option<Request>)
      requires Valid()
      requires readerResult.Some? ==> ',' in readerResult.value
      modifies this
      ensures Valid()
      ensures originalImage == old(originalImage) && originalImagePreview == old(originalImagePreview)
      ensures prompt == old(prompt)
      ensures !old(CanGenerate()) ==>
        request.None? && state == old(state) && error == old(error) && resultImage == old(resultImage)
      ensures old(CanGenerate()) && readerResult.None? ==>
        request.None? && state == Error && error == UnexpectedErrorMessage && resultImage == old(resultImage)
      ensures old(CanGenerate()) && readerResult.Some? ==>
        var outcome := EditOutcome(apiKey, reply);
        && (outcome.Ok? ==> state == Complete && resultImage == ResultImageUri(outcome.value) && error == "")
        && (outcome.Err? ==> state == Error && error == outcome.message && resultImage == old(resultImage))
      ensures old(CanGenerate()) && readerResult.Some? && apiKey == "" ==> request.None?
      ensures old(CanGenerate()) && readerResult.Some? && apiKey != "" ==>
        && request.Some?
        && request.value.model == ModelId
        && |request.value.parts| == 2
        && request.value.parts[0].inlineData ==
             Some(Blob(StripDataUrlPrefix(readerResult.value), Some(old(originalImage).value.fileType)))
        && request.value.parts[0].text.None?
        && request.value.parts[1].inlineData.None?
        && request.value.parts[1].text == Some(old(prompt))
    {
      var call := GenerateRequested();
      if call.None? {
        return None;
      }
      if readerResult.None? {
        GenerateFailed("");
        return None;
      }
      var base64 := StripDataUrlPrefix(readerResult.value).value;
      var result;
      request, result := EditImageWithGemini(apiKey, base64, call.value.image.fileType, call.value.prompt, reply);
      match result {
        case Ok(img) => GenerateSucceeded(img);
        case Err(m) => GenerateFailed(m);
      }
    }

    // -------------------------------------------------------------------------
    // What is shown and what is enabled (App.tsx:93, 107, 159, 171, 182, 190, 201, 225)

    /** The uploader is shown in Idle only, so never while an image is held. */
    predicate UploaderShown()
      reads this
      ensures Valid() && UploaderShown() ==> originalImage.None? && error == ""
    {
      state == Idle
    }

    /** The editing panel (preview, reset button, prompt, presets, submit) is shown while
        ready, processing or in error. */
    predicate EditPanelShown()
      reads this
      ensures Valid() && EditPanelShown() && state != Error ==> originalImage.Some?
    {
      state == ReadyToEdit || state == Processing || state == Error
    }

    /** The before/after viewer is shown when complete, and then neither other view is. */
    predicate ResultShown()
      reads this
      ensures ResultShown() ==> !UploaderShown() && !EditPanelShown()
    {
      state == Complete
    }

    /** The submit button is enabled when the prompt is not blank and nothing is in flight. */
    predicate SubmitEnabled()
      reads this
      ensures SubmitEnabled() <==> !IsBlank(prompt) && state != Processing
    {
      Trim(prompt) != "" && state != Processing
    }

    /** The prompt textarea and every preset button are disabled while processing;
        the reset button has no such condition. */
    predicate PromptInputsEnabled()
      reads this
      ensures !PromptInputsEnabled() ==> !SubmitEnabled()
      ensures Valid() && !PromptInputsEnabled() ==> originalImage.Some? && error == ""
    {
      state != Processing
    }

    /** The error banner sits inside the edit panel and is drawn when the error is not empty;
        it is shown exactly in the Error state (a stale error left in Complete is not drawn). */
    predicate ErrorShown()
      reads this
      ensures Valid() ==> (ErrorShown() <==> state == Error)
    {
      EditPanelShown() && error != ""
    }
  }

  /** Exactly one of the three views is on the page. */
  lemma ExactlyOneView(app: App)
    requires app.Valid()
    ensures app.UploaderShown() || app.EditPanelShown() || app.ResultShown()
    ensures !(app.UploaderShown() && app.EditPanelShown())
    ensures !(app.UploaderShown() && app.ResultShown())
    ensures !(app.EditPanelShown() && app.ResultShown())
  {
  }

  /** Clicking an enabled submit button in the ready state always starts an edit; in the
      error state it does so whenever an image is still held. */
  lemma EnabledSubmitPassesGuard(app: App)
    requires app.Valid() && app.EditPanelShown() && app.SubmitEnabled()
    ensures app.state == ReadyToEdit || app.state == Error
    ensures app.state == ReadyToEdit ==> app.CanGenerate()
    ensures app.state == Error ==> (app.CanGenerate() <==> app.originalImage.Some?)
  {
  }

  /** Every preset's text is not blank, so choosing one enables submission. */
  lemma PresetsAreNotBlank()
    ensures forall i :: 0 <= i < |Presets| ==> Trim(Presets[i].text) != ""
  {
    forall i | 0 <= i < |Presets|
      ensures Trim(Presets[i].text) != ""
    {
      assert !IsWhiteSpace(Presets[i].text[0]);
    }
  }

  /** The high-fidelity preset's text is not blank either. */
  lemma HighFidelityPresetIsNotBlank()
    ensures Trim(HighFidelityPromptText) != ""
  {
    assert !IsWhiteSpace(HighFidelityPromptText[0]);
  }

  // ---------------------------------------------------------------------------
  // Runs of the page

  /** A reset while an edit is in flight does not cancel it: the late failure moves the
      page from Idle to Error with no image held and a blank prompt, so the edit panel shows
      with submission disabled. */
  method LateFailureAfterReset(file: File, previewUrl: string, text: string, message: string)
    returns (state: AppState, image: Option<File>, error: string, submitEnabled: bool)
    requires Trim(text) != ""
    ensures state == Error && image == None && error == FailureMessage(message) && !submitEnabled
  {
    var app := new App();
    app.ImageSelected(file, previewUrl);
    app.PresetClicked(text);
    var call := app.GenerateRequested();
    assert call.Some?;
    app.Reset();
    app.GenerateFailed(message);
    state, image, error, submitEnabled := app.state, app.originalImage, app.error, app.SubmitEnabled();
  }

  /** Likewise a late success after a reset moves Idle to Complete with no image held. */
  method LateSuccessAfterReset(file: File, previewUrl: string, text: string, result: EditedImage)
    returns (state: AppState, image: Option<File>, resultImage: string)
    requires Trim(text) != ""
    ensures state == Complete && image == None && resultImage == ResultImageUri(result)
  {
    var app := new App();
    app.ImageSelected(file, previewUrl);
    app.PresetClicked(text);
    var call := app.GenerateRequested();
    assert call.Some?;
    app.Reset();
    app.GenerateSucceeded(result);
    state, image, resultImage := app.state, app.originalImage, app.resultImage;
  }

  /** Two edits in flight: the second fails, then the first, started before a reset, succeeds.
      The page ends in Complete still holding the failure's message, and the banner is not drawn. */
  method StaleErrorHiddenInComplete(file: File, previewUrl: string, text: string, message: string, result: EditedImage)
    returns (state: AppState, error: string, shown: bool)
    requires Trim(text) != ""
    ensures state == Complete && error == FailureMessage(message) && !shown
  {
    var app := new App();
    app.ImageSelected(file, previewUrl);
    app.PresetClicked(text);
    var first := app.GenerateRequested();
    app.Reset();
    app.ImageSelected(file, previewUrl);
    app.PresetClicked(text);
    var second := app.GenerateRequested();
    app.GenerateFailed(message);
    app.GenerateSucceeded(result);
    state, error, shown := app.state, app.error, app.ErrorShown();
  }

  /** After a failure the edit panel stays up with the prompt kept, so submitting again
      starts a new attempt with the same file and prompt. */
  method RetryFromError(file: File, previewUrl: string, text: string, message: string)
    returns (shown: bool, enabled: bool, state: AppState, call: Option<EditCall>)
    requires Trim(text) != ""
    ensures shown && enabled && state == Processing && call == Some(EditCall(file, text))
  {
    var app := new App();
    app.ImageSelected(file, previewUrl);
    app.PresetClicked(text);
    var first := app.GenerateRequested();
    app.GenerateFailed(message);
    shown, enabled := app.EditPanelShown(), app.SubmitEnabled();
    call := app.GenerateRequested();
    state := app.state;
  }
}
