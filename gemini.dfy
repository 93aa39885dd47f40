/** The service layer (services/gemini.ts): the data-URL strip of `fileToBase64` and
    `editImageWithGemini`, which sends one request to the image model and turns its reply
    into an edited image or an error message. The network call itself is not modelled:
    its reply is an input. */
module Gemini {
  import opened Wrappers
  import opened Types
  import opened Strings

  // ---------------------------------------------------------------------------
  // Constants (services/gemini.ts:38, 43, 63, 67, 85, 87, 97)

  const ModelId := "gemini-2.5-flash-image"
  const DefaultMimeType := "image/png"
  const ApiKeyMissingMessage := "API Key is missing. Please set the API_KEY environment variable."
  const NoContentMessage := "No content generated from the model."
  const TextInsteadPrefix := "Model returned text instead of image: "
  const NoValidImageMessage := "Model did not return a valid image."
  const FallbackMessage := "Failed to process image with Gemini."

  // ---------------------------------------------------------------------------
  // Request and response shapes. Every field the SDK declares optional is an Option.

  /** Inline binary data: base64 `data` and its `mimeType`. */
  datatype Blob = Blob(data: Option<string>, mimeType: Option<string>)

  /** One part of a request or response; it may carry inline data, text, both or neither. */
  datatype Part = Part(inlineData: Option<Blob>, text: Option<string>)

  datatype Content = Content(parts: Option<seq<Part>>)
  datatype Candidate = Candidate(content: Option<Content>)
  datatype Response = Response(candidates: Option<seq<Candidate>>)

  /** What is handed to `generateContent`: a model name and the ordered parts. */
  datatype Request = Request(model: string, parts: seq<Part>)

  /** What the awaited call produced: a response, or a thrown error with its `message`
      (the empty string when the thrown value has none). */
  datatype Reply = Replied(response: Response) | Threw(message: string)

  // ---------------------------------------------------------------------------
  // JavaScript truthiness on optional strings

  /** An optional string is truthy when present and non-empty. */
  predicate Truthy(s: Option<string>) {
    s.Some? && s.value != ""
  }

  predicate HasInlineData(p: Part) {
    p.inlineData.Some?
  }

  predicate HasText(p: Part) {
    Truthy(p.text)
  }

  /** The index of the first element satisfying `p`, as `Array.prototype.find` and a
      `for ... break` loop locate it. */
  function IndexWhere<T>(s: seq<T>, p: T -> bool): (r: Option<nat>)
    ensures r.Some? ==> r.value < |s| && p(s[r.value]) && forall j :: 0 <= j < r.value ==> !p(s[j])
    ensures r.None? ==> forall j :: 0 <= j < |s| ==> !p(s[j])
    decreases |s|
  {
    if |s| == 0 then None
    else if p(s[0]) then Some(0)
    else match IndexWhere(s[1..], p)
      case None => None
      case Some(k) => Some(k + 1)
  }

  /** Appending elements does not move a first match that already exists. */
  lemma IndexWhereAppend<T>(s: seq<T>, t: seq<T>, p: T -> bool)
    requires IndexWhere(s, p).Some?
    ensures IndexWhere(s + t, p) == IndexWhere(s, p)
  {
    var k := IndexWhere(s, p).value;
    assert (s + t)[k] == s[k];
    assert forall j :: 0 <= j < k ==> (s + t)[j] == s[j];
  }

  // ---------------------------------------------------------------------------
  // Reference definition of the outcome

  /** `process.env.API_KEY || ''` (services/gemini.ts:4). */
  function ApiKeyFromEnv(env: Option<string>): (key: string)
    ensures key == "" <==> !Truthy(env)
    ensures Truthy(env) ==> key == env.value
  {
    if Truthy(env) then env.value else ""
  }

  /** `response.candidates?.[0]?.content?.parts` (services/gemini.ts:60). An empty array of
      candidates counts as absent; an empty array of parts does not. */
  function ResponseParts(resp: Response): (r: Option<seq<Part>>)
    ensures r.Some? <==>
      resp.candidates.Some? && |resp.candidates.value| > 0 &&
      resp.candidates.value[0].content.Some? && resp.candidates.value[0].content.value.parts.Some?
    ensures r.Some? ==> r.value == resp.candidates.value[0].content.value.parts.value
  {
    match resp.candidates
    case None => None
    case Some(cs) =>
      if |cs| == 0 then None
      else match cs[0].content
        case None => None
        case Some(c) => c.parts
  }

  /** The media type kept for the result: the part's own when truthy, else `image/png`. */
  function MimeOrDefault(m: Option<string>): (r: string)
    ensures r != ""
    ensures Truthy(m) ==> r == m.value
    ensures !Truthy(m) ==> r == DefaultMimeType
  {
    if Truthy(m) then m.value else DefaultMimeType
  }

  /** `parts.find(p => p.text)?.text` (services/gemini.ts:83): the first non-empty text. */
  function FirstText(parts: seq<Part>): (r: Option<string>)
    ensures r.Some? ==> r.value != ""
    ensures r.Some? ==>
      exists k :: 0 <= k < |parts| && parts[k].text == Some(r.value) && forall j :: 0 <= j < k ==> !HasText(parts[j])
    ensures r.None? ==> forall k :: 0 <= k < |parts| ==> !HasText(parts[k])
  {
    match IndexWhere(parts, HasText)
    case None => None
    case Some(k) => Some(parts[k].text.value)
  }

  /** The error raised when no usable image was found (services/gemini.ts:81-87). */
  function NoImageError(parts: seq<Part>): (r: Result<EditedImage>)
    ensures r.Err?
  {
    match FirstText(parts)
    case Some(t) => Err(TextInsteadPrefix + t)
    case None => Err(NoValidImageMessage)
  }

  /** The outcome decided by the parts once they exist (services/gemini.ts:66-93): the first
      part with inline data ends the search; its data must be truthy to be the result. */
  function PartsOutcome(parts: seq<Part>): (r: Result<EditedImage>)
    ensures r.Ok? ==> r.value.data != "" && r.value.mimeType != ""
    ensures r.Err? ==> r == NoImageError(parts)
  {
    match IndexWhere(parts, HasInlineData)
    case Some(k) =>
      var blob := parts[k].inlineData.value;
      if Truthy(blob.data) then Ok(EditedImage(blob.data.value, MimeOrDefault(blob.mimeType)))
      else NoImageError(parts)
    case None => NoImageError(parts)
  }

  /** `error.message || "Failed to process image with Gemini."` (services/gemini.ts:97). */
  function Rewrap(message: string): (r: string)
    ensures r != ""
    ensures message != "" ==> r == message
    ensures message == "" ==> r == FallbackMessage
  {
    if message != "" then message else FallbackMessage
  }

  /** What `editImageWithGemini` resolves to, or the message of the error it rejects with,
      for a given key and reply of the model. Success needs a key, a response and parts;
      every error carries a non-empty message. */
  function EditOutcome(apiKey: string, reply: Reply): (r: Result<EditedImage>)
    ensures r.Ok? ==> apiKey != "" && reply.Replied? && ResponseParts(reply.response).Some?
    ensures r.Ok? ==> r.value.data != "" && r.value.mimeType != ""
    ensures r.Err? ==> r.message != ""
  {
    if apiKey == "" then Err(ApiKeyMissingMessage)
    else match reply
      case Threw(m) => Err(Rewrap(m))
      case Replied(resp) =>
        match ResponseParts(resp)
        case None => Err(NoContentMessage)
        case Some(parts) => PartsOutcome(parts)
  }

  // ---------------------------------------------------------------------------
  // The code as written

  /** The `for ... of` loop over the parts (services/gemini.ts:66-79): it stops at the first
      part carrying inline data and returns that data and the media type to use. */
  method ScanParts(parts: seq<Part>) returns (imageData: Option<string>, mimeType: string)
    ensures IndexWhere(parts, HasInlineData).None? ==> imageData.None? && mimeType == DefaultMimeType
    ensures IndexWhere(parts, HasInlineData).Some? ==>
      var blob := parts[IndexWhere(parts, HasInlineData).value].inlineData.value;
      imageData == blob.data && mimeType == MimeOrDefault(blob.mimeType)
  {
    imageData, mimeType := None, DefaultMimeType;
    var i := 0;
    while i < |parts|
      invariant 0 <= i <= |parts|
      invariant forall j :: 0 <= j < i ==> !HasInlineData(parts[j])
      invariant imageData.None? && mimeType == DefaultMimeType
    {
      if parts[i].inlineData.Some? {
        var blob := parts[i].inlineData.value;
        imageData := blob.data;
        if Truthy(blob.mimeType) {
          mimeType := blob.mimeType.value;
        }
        break;
      }
      i := i + 1;
    }
  }

  /** `editImageWithGemini(imageBase64, mimeType, promptText)` (services/gemini.ts:32-99).
      `request` is what is sent to the model, absent when no call is made; `reply` stands for
      what the call produced. The result is the reference outcome `EditOutcome`. */
  method EditImageWithGemini(apiKey: string, imageBase64: string, mimeType: string, promptText: string, reply: Reply)
    returns (request: Option<Request>, r: Result<EditedImage>)
    ensures request.None? <==> apiKey == ""
    ensures request.Some? ==>
      && request.value.model == ModelId
      && |request.value.parts| == 2
      && request.value.parts[0].inlineData == Some(Blob(Some(imageBase64), Some(mimeType)))
      && request.value.parts[0].text.None?
      && request.value.parts[1].inlineData.None?
      && request.value.parts[1].text == Some(promptText)
    ensures r == EditOutcome(apiKey, reply)
  {
    if apiKey == "" {
      // Raised before the try block: not rewrapped, and no call is made.
      return None, Err(ApiKeyMissingMessage);
    }
    request := Some(Request(ModelId, [
      Part(Some(Blob(Some(imageBase64), Some(mimeType))), None),
      Part(None, Some(promptText))
    ]));
    var attempt: Result<EditedImage>;
    match reply {
      case Threw(m) =>
        attempt := Err(m);
      case Replied(resp) =>
        var parts := ResponseParts(resp);
        if parts.None? {
          attempt := Err(NoContentMessage);
        } else {
          var imageData, responseMimeType := ScanParts(parts.value);
          if !Truthy(imageData) {
            var textPart := FirstText(parts.value);
            if Truthy(textPart) {
              attempt := Err(TextInsteadPrefix + textPart.value);
            } else {
              attempt := Err(NoValidImageMessage);
            }
          } else {
            attempt := Ok(EditedImage(imageData.value, responseMimeType));
          }
        }
    }
    // The catch block: every error raised inside the try is re-raised through Rewrap.
    match attempt {
      case Ok(img) => r := Ok(img);
      case Err(m) => r := Err(Rewrap(m));
    }
  }

  // ---------------------------------------------------------------------------
  // fileToBase64's prefix strip (services/gemini.ts:18-19)

  /** `result.split(',')[1]`: the piece between the first and the second comma, or
      `undefined` (None) when there is no comma. */
  function StripDataUrlPrefix(dataUrl: string): (r: Option<string>)
    ensures r.None? <==> ',' !in dataUrl
    ensures r.Some? ==> ',' !in r.value
    ensures r.Some? ==> exists i :: IsFirstComma(dataUrl, i) && IsPieceAt(dataUrl, i + 1, r.value)
  {
    SplitSingleIffNoSep(dataUrl, ',');
    var pieces := Split(dataUrl, ',');
    if |pieces| >= 2 then
      SecondPieceFollowsFirstComma(dataUrl);
      Some(pieces[1])
    else None
  }

  /** `i` is the index of the first comma of `s`. */
  predicate IsFirstComma(s: string, i: int) {
    0 <= i < |s| && s[i] == ',' && ',' !in s[..i]
  }

  /** `piece` starts at index `start` of `s` and runs to the end or to the next comma. */
  predicate IsPieceAt(s: string, start: int, piece: string) {
    0 <= start <= |s| && piece <= s[start..] && (start + |piece| == |s| || s[start + |piece|] == ',')
  }

  /** The second piece of `split(',')` is the text from just after the first comma up to the
      next comma or the end. */
  lemma SecondPieceFollowsFirstComma(s: string)
    requires ',' in s
    ensures |Split(s, ',')| >= 2
    ensures IsFirstComma(s, |Split(s, ',')[0]|)
    ensures IsPieceAt(s, |Split(s, ',')[0]| + 1, Split(s, ',')[1])
  {
    var a := Split(s, ',')[0];
    var i := |a|;
    var rest := s[i + 1..];
    assert s == a + [','] + rest by {
      assert s[..i] == a;
    }
    SplitAtFirst(a, ',', rest);
    assert s[..i] == a;
    assert s[i + 1..] == rest;
  }

  /** The base64 alphabet of section 4 of RFC 4648, with its pad character. */
  predicate IsBase64Char(c: char) {
    ('A' <= c <= 'Z') || ('a' <= c <= 'z') || ('0' <= c <= '9') || c == '+' || c == '/' || c == '='
  }

  predicate IsBase64(s: string) {
    forall i :: 0 <= i < |s| ==> IsBase64Char(s[i])
  }

  /** A base64 data URL in the form of section 3 of RFC 2397. */
  function Base64DataUrl(mediaType: string, payload: string): string {
    "data:" + mediaType + ";base64," + payload
  }

  /** The strip recovers the payload of a base64 data URL whose media type has no comma:
      the base64 alphabet has none, so the payload is the whole second piece. */
  lemma StripBase64DataUrl(mediaType: string, payload: string)
    requires ',' !in mediaType
    requires IsBase64(payload)
    ensures StripDataUrlPrefix(Base64DataUrl(mediaType, payload)) == Some(payload)
  {
    var head := "data:" + mediaType + ";base64";
    assert Base64DataUrl(mediaType, payload) == head + [','] + payload;
    assert ',' !in head by {
      assert forall i :: 0 <= i < |head| ==> head[i] == ',' ==> 5 <= i < 5 + |mediaType| && mediaType[i - 5] == ',';
    }
    assert ',' !in payload by {
      assert forall i :: 0 <= i < |payload| ==> IsBase64Char(payload[i]);
    }
    SplitAtFirst(head, ',', payload);
    SplitNoSep(payload, ',');
  }

  // ---------------------------------------------------------------------------
  // Properties of the outcome

  /** An unset or empty `API_KEY` gives the configuration error, whatever the model would
      have replied. */
  lemma MissingKeyPrecedesCall(env: Option<string>, reply: Reply)
    requires !Truthy(env)
    ensures EditOutcome(ApiKeyFromEnv(env), reply) == Err(ApiKeyMissingMessage)
  {
  }

  /** "No content generated" is reported exactly when the parts are missing; an empty
      array of parts is not missing and ends in "Model did not return a valid image." */
  lemma NoContentIffPartsMissing(apiKey: string, resp: Response)
    requires apiKey != ""
    ensures EditOutcome(apiKey, Replied(resp)) == Err(NoContentMessage) <==> ResponseParts(resp).None?
    ensures ResponseParts(resp) == Some([]) ==> EditOutcome(apiKey, Replied(resp)) == Err(NoValidImageMessage)
  {
  }

  /** The first part with inline data decides success: the result is its data and media
      type, and an empty payload there is a failure even if later parts carry images. */
  lemma FirstInlinePartDecides(parts: seq<Part>, k: nat)
    requires k < |parts| && HasInlineData(parts[k])
    requires forall j :: 0 <= j < k ==> !HasInlineData(parts[j])
    ensures var blob := parts[k].inlineData.value;
      PartsOutcome(parts) ==
        if Truthy(blob.data) then Ok(EditedImage(blob.data.value, MimeOrDefault(blob.mimeType)))
        else NoImageError(parts)
  {
  }

  /** A successful result is never changed by parts that follow. */
  lemma LaterPartsIgnoredOnSuccess(parts: seq<Part>, more: seq<Part>)
    requires PartsOutcome(parts).Ok?
    ensures PartsOutcome(parts + more) == PartsOutcome(parts)
  {
    IndexWhereAppend(parts, more, HasInlineData);
    var k := IndexWhere(parts, HasInlineData).value;
    assert (parts + more)[k] == parts[k];
  }

  /** Success means a non-empty payload taken from the first image part and a non-empty
      media type: that part's own if truthy, `image/png` otherwise. */
  lemma SuccessComesFromFirstImagePart(parts: seq<Part>)
    requires PartsOutcome(parts).Ok?
    ensures IndexWhere(parts, HasInlineData).Some?
    ensures var blob := parts[IndexWhere(parts, HasInlineData).value].inlineData.value;
      && blob.data == Some(PartsOutcome(parts).value.data)
      && PartsOutcome(parts).value.data != ""
      && PartsOutcome(parts).value.mimeType == MimeOrDefault(blob.mimeType)
      && PartsOutcome(parts).value.mimeType != ""
  {
  }

  /** Without a usable image, the first non-empty text becomes the message; with none,
      the generic message is used. */
  lemma FailureMessageChoice(parts: seq<Part>)
    requires PartsOutcome(parts).Err?
    ensures FirstText(parts).Some? ==> PartsOutcome(parts) == Err(TextInsteadPrefix + FirstText(parts).value)
    ensures FirstText(parts).None? ==> PartsOutcome(parts) == Err(NoValidImageMessage)
  {
  }

  /** A response with a single candidate whose content has the given parts. */
  function OneCandidate(parts: Option<seq<Part>>): Response {
    Response(Some([Candidate(Some(Content(parts)))]))
  }

  /** The worked cases: a refusal, a plain image, an image after a note without a media
      type, no candidates, an image part with an empty payload before a good one, an
      empty text before a non-empty one, two texts of which the first is reported, and a
      candidate without parts. */
  lemma WorkedCases(apiKey: string)
    requires apiKey != ""
    ensures EditOutcome(apiKey, Replied(OneCandidate(Some([Part(None, Some("I can't do that"))]))))
      == Err(TextInsteadPrefix + "I can't do that")
    ensures EditOutcome(apiKey, Replied(OneCandidate(Some([Part(Some(Blob(Some("AAAA"), Some("image/jpeg"))), None)]))))
      == Ok(EditedImage("AAAA", "image/jpeg"))
    ensures EditOutcome(apiKey, Replied(OneCandidate(Some([Part(None, Some("note")), Part(Some(Blob(Some("BBBB"), None)), None)]))))
      == Ok(EditedImage("BBBB", "image/png"))
    ensures EditOutcome(apiKey, Replied(Response(Some([])))) == Err(NoContentMessage)
    ensures EditOutcome(apiKey, Replied(OneCandidate(None))) == Err(NoContentMessage)
    ensures EditOutcome(apiKey, Replied(OneCandidate(Some([Part(Some(Blob(Some(""), None)), None), Part(Some(Blob(Some("CCCC"), None)), None)]))))
      == Err(NoValidImageMessage)
    ensures EditOutcome(apiKey, Replied(OneCandidate(Some([Part(None, Some("")), Part(None, Some("why"))]))))
      == Err(TextInsteadPrefix + "why")
    ensures EditOutcome(apiKey, Replied(OneCandidate(Some([Part(None, Some("a")), Part(None, Some("b"))]))))
      == Err(TextInsteadPrefix + "a")
  {
  }
}
