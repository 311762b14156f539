/**
  The prompt panel's handlers: dispatching a generate or edit request from the current prompt,
  adding an uploaded file to the store according to the selected tool, clearing the session,
  and the prompt-length quality indicator.
 */
module PromptPanel {
  import opened Wrappers
  import opened Text
  import opened Entities
  import opened Store
  import Gemini

  // ----- Quality indicator -----

  datatype QualityTier = AddDetail | Adequate | Excellent

  function TierRank(t: QualityTier): nat {
    match t
    case AddDetail => 0
    case Adequate => 1
    case Excellent => 2
  }

  /** The indicator under the prompt: below 20 characters ask for detail, below 50 is adequate. */
  function Tier(prompt: string): (r: QualityTier)
    ensures r == AddDetail <==> |prompt| < 20
    ensures r == Adequate <==> 20 <= |prompt| < 50
    ensures r == Excellent <==> 50 <= |prompt|
  {
    if |prompt| < 20 then AddDetail
    else if |prompt| < 50 then Adequate
    else Excellent
  }

  /** A longer prompt never shows a lower tier. */
  lemma TierMonotone(a: string, b: string)
    requires |a| <= |b|
    ensures TierRank(Tier(a)) <= TierRank(Tier(b))
  {
  }

  // ----- Data URLs and reference images -----

  /** The marker that separates a data URL's header from its base64 payload. */
  const DataMarker := "base64,"

  /** An uploaded file: its MIME type and its base64 encoding (`None` when reading it failed). */
  datatype UploadFile = UploadFile(mimeType: string, encoded: Option<string>)

  /** The data URL stored for an upload of type `mimeType` with base64 payload `b64`. */
  function DataUrl(mimeType: string, b64: string): (r: string)
    ensures StartsWith(r, "data:" + mimeType + ";" + DataMarker)
    ensures EndsWith(r, b64)
  {
    var head := "data:" + mimeType + ";" + DataMarker;
    assert (head + b64)[..|head|] == head;
    assert (head + b64)[|head + b64| - |b64|..] == b64;
    head + b64
  }

  /**
    `uploadedImages.filter(img => img.includes('base64,')).map(img => img.split('base64,')[1])`:
    the entries carrying the marker, each replaced by what follows its first marker (up to a
    second one), in order.
   */
  function ReferenceImages(uploads: seq<string>): (r: seq<string>)
    ensures |r| <= |uploads|
    ensures forall i :: 0 <= i < |r| ==> !Contains(r[i], DataMarker)
    ensures r == [] <==> forall i :: 0 <= i < |uploads| ==> !Contains(uploads[i], DataMarker)
  {
    if |uploads| == 0 then []
    else
      var rest := ReferenceImages(uploads[1..]);
      assert forall i :: 1 <= i < |uploads| ==> uploads[1..][i - 1] == uploads[i];
      match SecondField(uploads[0], DataMarker)
      case Some(b) => [b] + rest
      case None => rest
  }

  /** The reference taken from a stored data URL is exactly its payload, when neither part holds a comma. */
  lemma DataUrlReference(mimeType: string, b64: string)
    requires ',' !in mimeType && ',' !in b64
    ensures SecondField(DataUrl(mimeType, b64), DataMarker) == Some(b64)
  {
    var prefix := "data:" + mimeType + ";base64";
    var s := DataUrl(mimeType, b64);
    assert s == prefix + "," + b64;
    var at := |mimeType| + 6;
    assert ',' !in prefix by {
      assert forall k :: 0 <= k < |prefix| ==> prefix[k] == ("data:" + mimeType + ";base64")[k];
    }
    assert OccursAt(s, DataMarker, at) by {
      assert s[at..at + |DataMarker|] == DataMarker;
    }
    forall j | 0 <= j < at ensures !OccursAt(s, DataMarker, j) {
      assert s[j + 6] == prefix[j + 6];
      if j + |DataMarker| <= |s| {
        assert s[j..j + |DataMarker|][6] == s[j + 6];
      }
    }
    assert FindFirst(s, DataMarker) == Some(at);
    assert s[at + |DataMarker|..] == b64;
    AbsentCharNotContained(b64, DataMarker, ',');
  }

  /** The data URLs of a sequence of successfully read uploads. */
  function DataUrls(files: seq<(string, string)>): (r: seq<string>)
    ensures |r| == |files|
  {
    if |files| == 0 then [] else [DataUrl(files[0].0, files[0].1)] + DataUrls(files[1..])
  }

  /** The base64 payloads of a sequence of successfully read uploads. */
  function StoredPayloads(files: seq<(string, string)>): (r: seq<string>)
    ensures |r| == |files|
  {
    if |files| == 0 then [] else [files[0].1] + StoredPayloads(files[1..])
  }

  /**
    The references sent with a generate request are exactly the payloads of the stored uploads,
    in order, when no type or payload holds a comma.
   */
  lemma {:induction false} ReferencesOfUploads(files: seq<(string, string)>)
    requires forall i :: 0 <= i < |files| ==> ',' !in files[i].0 && ',' !in files[i].1
    ensures ReferenceImages(DataUrls(files)) == StoredPayloads(files)
  {
    if |files| > 0 {
      DataUrlReference(files[0].0, files[0].1);
      ReferencesOfUploads(files[1..]);
      assert DataUrls(files)[1..] == DataUrls(files[1..]);
    }
  }

  // ----- Dispatch -----

  /** What pressing the generate button does: nothing, a generate request, or an edit with the prompt. */
  datatype Dispatch = NoDispatch | GenerateCall(request: Gemini.GenerationRequest) | EditCall(instruction: string)

  /**
    `handleGenerate`: nothing when the prompt is blank after trimming; in generate mode a
    request with the untrimmed prompt, the reference images (omitted when there are none), the
    temperature and the seed only when it is set and non-zero; in edit and mask mode an edit
    with the untrimmed prompt.
   */
  method HandleGenerate(store: AppStore) returns (d: Dispatch)
    ensures d.NoDispatch? <==> Trim(store.currentPrompt) == ""
    ensures d.GenerateCall? <==> Trim(store.currentPrompt) != "" && store.selectedTool == GenerateTool
    ensures d.EditCall? ==> d.instruction == store.currentPrompt && store.selectedTool != GenerateTool
    ensures d.GenerateCall? ==>
      && d.request.prompt == store.currentPrompt
      && Gemini.References(d.request.referenceImages) == ReferenceImages(store.uploadedImages)
      && d.request.referenceImages != Some([])
      && d.request.temperature == Some(store.temperature)
      && (d.request.seed.Some? <==> store.seed.Some? && store.seed.value != 0)
      && (d.request.seed.Some? ==> d.request.seed == store.seed)
  {
    if Trim(store.currentPrompt) == "" {
      return NoDispatch;
    }
    if store.selectedTool == GenerateTool {
      var refs := ReferenceImages(store.uploadedImages);
      var seed := if store.seed.Some? && store.seed.value != 0 then store.seed else None;
      d := GenerateCall(Gemini.GenerationRequest(
        store.currentPrompt,
        if |refs| > 0 then Some(refs) else None,
        Some(store.temperature),
        seed));
    } else {
      d := EditCall(store.currentPrompt);
    }
  }

  // ----- Store updates -----

  /**
    `handleFileUpload` for the selected file (`None` when no file was chosen). Nothing happens
    for a file that is not an image or could not be read. Otherwise, in generate mode the data
    URL is appended to the uploads while fewer than two are held; in edit mode it is appended
    to the edit references while fewer than two are held, and becomes the canvas image when the
    canvas is empty; in mask mode it replaces the uploads and becomes the canvas image.
   */
  method HandleFileUpload(store: AppStore, file: Option<UploadFile>)
    requires store.Valid()
    modifies store`uploadedImages, store`editReferenceImages, store`canvasImage
    ensures store.Valid()
    ensures !(file.Some? && StartsWith(file.value.mimeType, "image/") && file.value.encoded.Some?) ==>
      && store.uploadedImages == old(store.uploadedImages)
      && store.editReferenceImages == old(store.editReferenceImages)
      && store.canvasImage == old(store.canvasImage)
    ensures file.Some? && StartsWith(file.value.mimeType, "image/") && file.value.encoded.Some? ==>
      var url := DataUrl(file.value.mimeType, file.value.encoded.value);
      match store.selectedTool
      case GenerateTool =>
        && store.uploadedImages == old(if |store.uploadedImages| < MaxUploads then store.uploadedImages + [url] else store.uploadedImages)
        && store.editReferenceImages == old(store.editReferenceImages)
        && store.canvasImage == old(store.canvasImage)
      case EditTool =>
        && store.uploadedImages == old(store.uploadedImages)
        && store.editReferenceImages == old(if |store.editReferenceImages| < MaxUploads then store.editReferenceImages + [url] else store.editReferenceImages)
        && store.canvasImage == old(if Truthy(store.canvasImage) then store.canvasImage else Some(url))
      case MaskTool =>
        && store.uploadedImages == [url]
        && store.editReferenceImages == old(store.editReferenceImages)
        && store.canvasImage == Some(url)
  {
    if file.None? || !StartsWith(file.value.mimeType, "image/") || file.value.encoded.None? {
      return;
    }
    var url := DataUrl(file.value.mimeType, file.value.encoded.value);
    match store.selectedTool
    case GenerateTool =>
      if |store.uploadedImages| < MaxUploads {
        store.uploadedImages := store.uploadedImages + [url];
      }
    case EditTool =>
      if |store.editReferenceImages| < MaxUploads {
        store.editReferenceImages := store.editReferenceImages + [url];
      }
      if !Truthy(store.canvasImage) {
        store.canvasImage := Some(url);
      }
    case MaskTool =>
      store.uploadedImages := [];
      store.uploadedImages := store.uploadedImages + [url];
      store.canvasImage := Some(url);
  }

  /**
    `handleClearSession`: the prompt, both upload lists and the strokes are emptied, the canvas
    image and the seed are unset and the temperature returns to 0.7. The zoom, the pan, the
    tool, the selections and the history are kept.
   */
  method HandleClearSession(store: AppStore)
    requires store.Valid()
    modifies store`currentPrompt, store`uploadedImages, store`editReferenceImages, store`brushStrokes
    modifies store`canvasImage, store`seed, store`temperature
    ensures store.Valid()
    ensures store.currentPrompt == "" && store.uploadedImages == [] && store.editReferenceImages == []
    ensures store.brushStrokes == [] && store.canvasImage == None && store.seed == None
    ensures store.temperature == DefaultTemperature
  {
    store.currentPrompt := "";
    store.uploadedImages := [];
    store.editReferenceImages := [];
    store.brushStrokes := [];
    store.canvasImage := None;
    store.seed := None;
    store.temperature := DefaultTemperature;
  }
}
