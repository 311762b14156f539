/**
  The image service adapter: classification of service errors into user messages, the ordered
  content lists sent for generate and edit requests, the edit prompt, and extraction of the
  image payloads from a reply. The service call itself is a parameter: the reply it gave.
 */
module Gemini {
  import opened Wrappers
  import opened Text

  // ----- Error classification -----

  /** The error classes, in the order they are tested. */
  datatype ErrorClass = ContentPolicy | RateLimited | Unauthorized | NetworkFailure

  function Rank(c: ErrorClass): nat {
    match c
    case ContentPolicy => 0
    case RateLimited => 1
    case Unauthorized => 2
    case NetworkFailure => 3
  }

  /** The message carries one of the markers of the class. */
  predicate Matches(message: string, c: ErrorClass) {
    match c
    case ContentPolicy => Contains(message, "content filtering policy") || Contains(message, "blocked")
    case RateLimited => Contains(message, "429") || Contains(message, "rate limit") || Contains(message, "quota")
    case Unauthorized => Contains(message, "401") || Contains(message, "API key") || Contains(message, "unauthorized")
    case NetworkFailure => Contains(message, "network") || Contains(message, "fetch") || Contains(message, "ECONNREFUSED")
  }

  /**
    The class of an error message: the first class, in priority order, whose markers it
    carries; `None` when it carries none.
   */
  function Classify(message: string): (r: Option<ErrorClass>)
    ensures r.Some? ==> Matches(message, r.value)
    ensures r.Some? ==> forall c :: Rank(c) < Rank(r.value) ==> !Matches(message, c)
    ensures r.None? <==> forall c :: !Matches(message, c)
  {
    if Matches(message, ContentPolicy) then Some(ContentPolicy)
    else if Matches(message, RateLimited) then Some(RateLimited)
    else if Matches(message, Unauthorized) then Some(Unauthorized)
    else if Matches(message, NetworkFailure) then Some(NetworkFailure)
    else None
  }

  /** The user-facing text of each class. */
  function ClassMessage(c: ErrorClass): (r: string)
    ensures r != ""
  {
    match c
    case ContentPolicy => PolicyMessage
    case RateLimited => RateLimitMessage
    case Unauthorized => AuthMessage
    case NetworkFailure => NetworkMessage
  }

  const PolicyMessage := "Your request was blocked by content policy. Please try a different prompt that avoids sensitive content."
  const RateLimitMessage := "API rate limit exceeded. Please wait a moment and try again."
  const AuthMessage := "Invalid API key. Please check your VITE_GEMINI_API_KEY in .env file."
  const NetworkMessage := "Network error. Please check your internet connection and try again."

  const UnexpectedError := "An unexpected error occurred. Please try again."

  /**
    `parseApiError` on the error's message (`''` when it has none): the classified message,
    else the raw message, else the fixed fallback. The result is never empty.
   */
  function ParseApiError(message: string): (r: string)
    ensures r != ""
    ensures Classify(message).Some? ==> r == ClassMessage(Classify(message).value)
    ensures Classify(message).None? && message != "" ==> r == message
    ensures Classify(message).None? && message == "" ==> r == UnexpectedError
  {
    match Classify(message)
    case Some(c) => ClassMessage(c)
    case None => if message != "" then message else UnexpectedError
  }

  /** A message carrying the markers of several classes is reported as the first of them. */
  lemma ClassifyPriority(message: string, c: ErrorClass)
    requires Matches(message, c)
    ensures Classify(message).Some? && Rank(Classify(message).value) <= Rank(c)
  {
  }

  // ----- Requests and content lists -----

  datatype GenerationRequest = GenerationRequest(
    prompt: string,
    referenceImages: Option<seq<string>>,
    temperature: Option<real>,
    seed: Option<int>)

  datatype EditRequest = EditRequest(
    instruction: string,
    originalImage: string,
    referenceImages: Option<seq<string>>,
    maskImage: Option<string>,
    temperature: Option<real>,
    seed: Option<int>)

  /** One entry of a request's content list: a text or an inline base64 image. */
  datatype Part = TextPart(text: string) | ImagePart(mimeType: string, data: string)

  const PngMime := "image/png"

  /** The reference images the request carries (none when the field is absent). */
  function References(refs: Option<seq<string>>): seq<string> {
    refs.GetOr([])
  }

  /** `contents[from..]` holds exactly the images `images`, in order, as PNG parts. */
  ghost predicate ImagesAt(contents: seq<Part>, from: nat, images: seq<string>) {
    && from + |images| <= |contents|
    && forall i :: 0 <= i < |images| ==> contents[from + i] == ImagePart(PngMime, images[i])
  }

  /** The content list of a generate request: the prompt text, then each reference image in order. */
  ghost predicate IsGenerateContents(request: GenerationRequest, contents: seq<Part>) {
    && |contents| == 1 + |References(request.referenceImages)|
    && contents[0] == TextPart(request.prompt)
    && ImagesAt(contents, 1, References(request.referenceImages))
  }

  /**
    The content list of an edit request: the edit prompt, the original image, each reference
    image in order, and the mask last when there is one.
   */
  ghost predicate IsEditContents(request: EditRequest, contents: seq<Part>) {
    var refs := References(request.referenceImages);
    && |contents| == 2 + |refs| + (if Truthy(request.maskImage) then 1 else 0)
    && contents[0] == TextPart(BuildEditPrompt(request.instruction, request.maskImage))
    && contents[1] == ImagePart(PngMime, request.originalImage)
    && ImagesAt(contents, 2, refs)
    && (Truthy(request.maskImage) ==> contents[|contents| - 1] == ImagePart(PngMime, request.maskImage.value))
  }

  /** Appends each image as a PNG part, in order. */
  method AppendImages(contents: seq<Part>, images: seq<string>) returns (r: seq<Part>)
    ensures |r| == |contents| + |images|
    ensures r[..|contents|] == contents
    ensures ImagesAt(r, |contents|, images)
  {
    r := contents;
    for i := 0 to |images|
      invariant |r| == |contents| + i
      invariant r[..|contents|] == contents
      invariant ImagesAt(r, |contents|, images[..i])
    {
      r := r + [ImagePart(PngMime, images[i])];
    }
    assert images[..|images|] == images;
  }

  /** The content list `generateImage` sends. */
  method GenerateContents(request: GenerationRequest) returns (contents: seq<Part>)
    ensures IsGenerateContents(request, contents)
  {
    contents := [TextPart(request.prompt)];
    if request.referenceImages.Some? && |request.referenceImages.value| > 0 {
      contents := AppendImages(contents, request.referenceImages.value);
    }
  }

  /** The content list `editImage` sends. */
  method EditContents(request: EditRequest) returns (contents: seq<Part>)
    ensures IsEditContents(request, contents)
  {
    contents := [TextPart(BuildEditPrompt(request.instruction, request.maskImage)), ImagePart(PngMime, request.originalImage)];
    if request.referenceImages.Some? && |request.referenceImages.value| > 0 {
      contents := AppendImages(contents, request.referenceImages.value);
    }
    if request.maskImage.Some? && request.maskImage.value != "" {
      var before := contents;
      contents := contents + [ImagePart(PngMime, request.maskImage.value)];
      assert forall i :: 0 <= i < |before| ==> contents[i] == before[i];
    }
  }

  // ----- The edit prompt -----

  const EditPreamble := "Edit this image according to the following instruction: "
  const EditGuidance := "\n\nMaintain the original image's lighting, perspective, and overall composition. Make the changes look natural and seamlessly integrated."
  const MaskClause := "\n\nIMPORTANT: Apply changes ONLY where the mask image shows white pixels (value 255). Leave all other areas completely unchanged. Respect the mask boundaries precisely and maintain seamless blending at the edges."
  const EditClosing := "\n\nPreserve image quality and ensure the edit looks professional and realistic."

  /**
    `buildEditPrompt`: the instruction appears verbatim right after the preamble, the closing
    sentence comes last, and the mask clause stands just before the closing sentence exactly
    when a mask image is present.
   */
  function BuildEditPrompt(instruction: string, maskImage: Option<string>): (r: string)
    ensures |r| == |EditPreamble| + |instruction| + |EditGuidance| + |EditClosing|
                   + (if Truthy(maskImage) then |MaskClause| else 0)
    ensures StartsWith(r, EditPreamble + instruction)
    ensures EndsWith(r, EditClosing)
  {
    var clause := if Truthy(maskImage) then MaskClause else "";
    EditPreamble + instruction + EditGuidance + clause + EditClosing
  }

  /** The mask clause stands just before the closing sentence exactly when a mask image is present. */
  lemma MaskClauseIffMask(instruction: string, maskImage: Option<string>)
    ensures var r := BuildEditPrompt(instruction, maskImage);
      EndsWith(r[..|r| - |EditClosing|], MaskClause) <==> Truthy(maskImage)
  {
    var head := EditPreamble + instruction + EditGuidance;
    var clause := if Truthy(maskImage) then MaskClause else "";
    var r := BuildEditPrompt(instruction, maskImage);
    assert r == head + clause + EditClosing;
    DropAppended(head + clause, EditClosing);
    if Truthy(maskImage) {
      EndsWithAppended(head, MaskClause);
    } else {
      assert head + clause == head;
      GuidanceDoesNotEndWithClause(EditPreamble + instruction);
    }
  }

  /** Without the clause, the text before the closing sentence ends in "integrated.", not "edges.". */
  lemma GuidanceDoesNotEndWithClause(head: string)
    ensures !EndsWith(head + EditGuidance, MaskClause)
  {
    var t := head + EditGuidance;
    if |MaskClause| <= |t| {
      assert t[|t| - |MaskClause|..][|MaskClause| - 2] == t[|t| - 2] == EditGuidance[|EditGuidance| - 2] == 'd';
      assert MaskClause[|MaskClause| - 2] == 's';
    }
  }

  // ----- Replies -----

  datatype InlineData = InlineData(mimeType: string, data: Option<string>)
  datatype ResponsePart = ResponsePart(text: Option<string>, inlineData: Option<InlineData>)
  /** A candidate's `content?.parts` (`None` when the content or its parts are missing). */
  datatype Candidate = Candidate(parts: Option<seq<ResponsePart>>)

  /** What the service call did: it threw an error with a message, or replied with candidates. */
  datatype ServiceReply = Threw(message: string) | Replied(candidates: Option<seq<Candidate>>)

  const NoResponse := "No response from model"
  const NoImage := "No image generated"

  /** The part carries a truthy `inlineData.data`. */
  predicate HasPayload(p: ResponsePart) {
    p.inlineData.Some? && Truthy(p.inlineData.value.data)
  }

  /** The payloads of the parts that carry one, in order. */
  function Payloads(parts: seq<ResponsePart>): (r: seq<string>)
    ensures |r| <= |parts|
    ensures forall i :: 0 <= i < |r| ==> r[i] != ""
    ensures r == [] <==> forall i :: 0 <= i < |parts| ==> !HasPayload(parts[i])
  {
    if |parts| == 0 then []
    else
      var last := parts[|parts| - 1];
      Payloads(parts[..|parts| - 1]) + (if HasPayload(last) then [last.inlineData.value.data.value] else [])
  }

  /** The parts of the first candidate (none when they are missing). */
  function FirstCandidateParts(candidates: seq<Candidate>): seq<ResponsePart>
    requires |candidates| > 0
  {
    candidates[0].parts.GetOr([])
  }

  /**
    What a reply yields: an error when there are no candidates or when the first candidate
    carries no image payload; otherwise the payloads of its parts, in order.
   */
  function Extraction(candidates: Option<seq<Candidate>>): (r: Result<seq<string>, string>)
    ensures r.Success? ==> |r.value| > 0 && forall i :: 0 <= i < |r.value| ==> r.value[i] != ""
    ensures r.Failure? ==> r.error == NoResponse || r.error == NoImage
    ensures r == Failure(NoResponse) <==> candidates.None? || |candidates.value| == 0
    ensures r.Success? ==> r.value == Payloads(FirstCandidateParts(candidates.value))
    ensures candidates.Some? && |candidates.value| > 0 ==>
      (r == Failure(NoImage) <==> Payloads(FirstCandidateParts(candidates.value)) == [])
  {
    if candidates.None? || |candidates.value| == 0 then Failure(NoResponse)
    else
      var images := Payloads(FirstCandidateParts(candidates.value));
      if |images| == 0 then Failure(NoImage) else Success(images)
  }

  /** The loop that collects the image payloads of a reply. */
  method ExtractImages(candidates: Option<seq<Candidate>>) returns (r: Result<seq<string>, string>)
    ensures r == Extraction(candidates)
  {
    if candidates.None? || |candidates.value| == 0 {
      return Failure(NoResponse);
    }
    var images: seq<string> := [];
    if candidates.value[0].parts.Some? {
      var parts := candidates.value[0].parts.value;
      for i := 0 to |parts|
        invariant images == Payloads(parts[..i])
      {
        assert parts[..i + 1][..i] == parts[..i];
        var part := parts[i];
        if part.inlineData.Some? && part.inlineData.value.data.Some? && part.inlineData.value.data.value != "" {
          images := images + [part.inlineData.value.data.value];
        }
      }
      assert parts[..|parts|] == parts;
    }
    if |images| == 0 {
      return Failure(NoImage);
    }
    return Success(images);
  }

  /** The reply's outcome as the caller sees it: every failure message goes through `parseApiError`. */
  function Reported(reply: ServiceReply): (r: Result<seq<string>, string>)
    ensures reply.Threw? ==> r == Failure(ParseApiError(reply.message))
    ensures reply.Replied? ==> r == Extraction(reply.candidates)
  {
    match reply
    case Threw(m) => Failure(ParseApiError(m))
    case Replied(c) =>
      match Extraction(c)
      case Success(images) => Success(images)
      case Failure(e) =>
        NoResponsePassesThrough();
        NoImagePassesThrough();
        Failure(ParseApiError(e))
  }

  /** "No response from model" carries no class marker, so `parseApiError` returns it as it is. */
  lemma NoResponsePassesThrough()
    ensures ParseApiError(NoResponse) == NoResponse
  {
    NoResponseUnmarked();
    UnmarkedPassesThrough(NoResponse);
  }

  lemma NoResponseUnmarked()
    ensures Unmarked(NoResponse)
  {
  }

  /** "No image generated" carries no class marker, so `parseApiError` returns it as it is. */
  lemma NoImagePassesThrough()
    ensures ParseApiError(NoImage) == NoImage
  {
    NoImageUnmarked();
    UnmarkedPassesThrough(NoImage);
  }

  lemma NoImageUnmarked()
    ensures Unmarked(NoImage)
  {
  }

  /** Characters of which every class marker except "rate limit" holds at least one. */
  const MarkerChars: set<char> := {'y', 'b', '4', 'q', 'A', 'z', 'w', 'h', 'E'}

  /** The message lacks a character of every class marker. */
  predicate Unmarked(m: string) {
    && (forall i :: 0 <= i < |m| ==> m[i] !in MarkerChars)
    && ((forall i :: 0 <= i < |m| ==> m[i] != 't') || (forall i :: 0 <= i < |m| ==> m[i] != 'l'))
  }

  /**
    A non-empty message lacking a character of every marker carries no marker, so `parseApiError`
    returns it unchanged.
   */
  lemma UnmarkedPassesThrough(m: string)
    requires m != "" && Unmarked(m)
    ensures Classify(m).None?
    ensures ParseApiError(m) == m
  {
    assert 'y' !in m && 'b' !in m && '4' !in m && 'q' !in m && 'A' !in m;
    assert 'z' !in m && 'w' !in m && 'h' !in m && 'E' !in m;
    NoContentPolicyMarker(m);
    NoRateLimitMarker(m);
    NoUnauthorizedMarker(m);
    NoNetworkMarker(m);
  }

  lemma NoContentPolicyMarker(m: string)
    requires 'y' !in m && 'b' !in m
    ensures !Matches(m, ContentPolicy)
  {
    AbsentCharNotContained(m, "content filtering policy", 'y');
    AbsentCharNotContained(m, "blocked", 'b');
  }

  lemma NoRateLimitMarker(m: string)
    requires ('t' !in m || 'l' !in m) && '4' !in m && 'q' !in m
    ensures !Matches(m, RateLimited)
  {
    AbsentCharNotContained(m, "429", '4');
    if 't' !in m {
      AbsentCharNotContained(m, "rate limit", 't');
    } else {
      AbsentCharNotContained(m, "rate limit", 'l');
    }
    AbsentCharNotContained(m, "quota", 'q');
  }

  lemma NoUnauthorizedMarker(m: string)
    requires '4' !in m && 'A' !in m && 'z' !in m
    ensures !Matches(m, Unauthorized)
  {
    AbsentCharNotContained(m, "401", '4');
    AbsentCharNotContained(m, "API key", 'A');
    AbsentCharNotContained(m, "unauthorized", 'z');
  }

  lemma NoNetworkMarker(m: string)
    requires 'w' !in m && 'h' !in m && 'E' !in m
    ensures !Matches(m, NetworkFailure)
  {
    AbsentCharNotContained(m, "network", 'w');
    AbsentCharNotContained(m, "fetch", 'h');
    AbsentCharNotContained(m, "ECONNREFUSED", 'E');
  }

  /** `generateImage`: what is sent, and what the caller gets back for the service's reply. */
  method GenerateImage(request: GenerationRequest, reply: ServiceReply)
    returns (sent: seq<Part>, r: Result<seq<string>, string>)
    ensures IsGenerateContents(request, sent)
    ensures r == Reported(reply)
  {
    sent := GenerateContents(request);
    r := Collect(reply);
  }

  /** `editImage`: what is sent, and what the caller gets back for the service's reply. */
  method EditImage(request: EditRequest, reply: ServiceReply)
    returns (sent: seq<Part>, r: Result<seq<string>, string>)
    ensures IsEditContents(request, sent)
    ensures r == Reported(reply)
  {
    sent := EditContents(request);
    r := Collect(reply);
  }

  /** The shared try/catch: a thrown or extraction error is rethrown with `parseApiError`'s message. */
  method Collect(reply: ServiceReply) returns (r: Result<seq<string>, string>)
    ensures r == Reported(reply)
  {
    if reply.Threw? {
      return Failure(ParseApiError(reply.message));
    }
    var images := ExtractImages(reply.candidates);
    if images.Failure? {
      return Failure(ParseApiError(images.error));
    }
    return images;
  }
}
