# Banana editor core, modelled in Dafny

This project models the logic of a browser-based AI image editor written in React and TypeScript.
The editor has three tool modes (generate, edit, mask). In mask mode the user paints freehand strokes
on a canvas. The prompt panel sends requests to an image-generation service. A history panel shows
recent generations and edits. A prompt builder assembles business-visualisation prompts.

The model covers five parts, one module each:

- `Canvas` (`canvas.dfy`): the editing canvas.
  - Pointer positions convert to image pixels, using the centring offset `(stage/zoom - image)/2`.
  - Points on the image border are accepted.
  - The zoom buttons clamp the zoom to [0.1, 3].
  - Each run of the image-load callback auto-fits the image when the view is at zoom 1 with the
    pan at the origin. The load effect runs again after every zoom, pan or stage-size change
    while a canvas image is set, so the image is fitted again whenever the view returns there.
    An intended variant fits only a newly decoded canvas image (see "## Findings").
  - The mask-stroke gesture is a class `EditorCanvas` holding `isDrawing` and the flat
    coordinate buffer. Its handlers append finished strokes to the store.
- `History` (`history.dfy`): the history panel.
  - The `slice(-2)` recency windows.
  - Tile clicks move the selection and the canvas image.
  - The detail panel resolves the selection, including an edit whose parent generation is gone.
  - The download button picks its source.
- `PromptBuilder` (`prompt_builder.dfy`): section flags, per-category selection, ordered
  prompt assembly (a loop, as in the source), and `{{subject}}` template substitution.
- `PromptPanel` (`prompt_panel.dfy`): the panel's handlers, as methods on the store.
  - Generate/edit dispatch is guarded by a trimmed-prompt check.
  - Reference images are extracted from data URLs.
  - Uploads are capped at two per list, with a mode-dependent effect.
  - The session clear.
  - The prompt-length quality tiers.
- `Gemini` (`gemini.dfy`): the service adapter.
  - Errors are classified by priority-ordered substring tests.
  - The ordered content lists of generate and edit requests.
  - The edit prompt, with its optional mask clause.
  - Image payloads are extracted from a reply.

Supporting modules:

- `Wrappers`: `Option` and `Result`.
- `Text`: the JavaScript string operations used, on `seq<char>`. These are `includes`,
  `startsWith`, `trim` with the ECMAScript white-space set, `join`, `split(sep)[1]`, and `replace`
  with a string pattern, including its `$` substitutions.
- `Entities`: the records: points, sizes, strokes, assets, generations, edits.
- `Store`: a class `AppStore` whose fields are the application-store fields these components read
  and write. Each component method assigns the fields the corresponding setter changes, and its
  `modifies` clause names exactly those fields.

How external inputs are represented:

- The service call is a parameter: the reply it gave, or the message it threw.
- A stroke's id (`stroke-` and the clock reading) is a parameter.
- `window.innerWidth` is a parameter.
- The image decoder is a parameter: the decoded size.
- The file reader's base64 output is a parameter: `None` when reading failed.

Behaviour of the code that a reader might not expect; the model follows the code:

- The session clear does not touch the selection, the history, the zoom or the pan.
- The generation tile's click handler (GenerationHistory.tsx:105-110) does not itself clear the
  edit selection, and `History.ClickGenerationTile` leaves `selectedEditId` as it was. What the
  store's `selectGeneration` does internally is not part of this model.
  `History.WindowGenerationShown` proves the detail panel shows the generation whatever the edit
  selection is.
- Auto-fit is not clamped to the zoom buttons' range. A very large image can be fitted below 0.1
  (`Canvas.ZoomOutAfterSmallFit`).
- The auto-fit runs again after zoom, pan and stage changes, although the comment above it says it
  is meant only for a new image (EditorCanvas.tsx:43). See "## Findings".
- `generateImage` and `editImage` send only the model name and the content list. The temperature and
  seed that `PromptPanel.HandleGenerate` puts in the request never reach the service.

## Model

| member | source | states |
|---|---|---|
| Canvas.ImageOffset | src/components/canvas/EditorCanvas.tsx:92-93 | the image's top-left corner is placed so that the image is centred in stage/zoom on both axes |
| Canvas.ToImageSpace | src/components/canvas/EditorCanvas.tsx:92-100 | a pointer maps to the pointer minus the centring offset; it is accepted iff 0 <= x <= width and 0 <= y <= height (borders included); an accepted pixel maps back to the pointer |
| Canvas.ToImageSpaceRoundTrip | src/components/canvas/EditorCanvas.tsx:92-100 | every pixel of the image, borders included, is hit by exactly the stage position that displays it |
| Canvas.ImageCentred | src/components/canvas/EditorCanvas.tsx:92-93 | the image centre is displayed at the centre of the unscaled stage |
| Canvas.ClampZoom | src/components/canvas/EditorCanvas.tsx:143 | the zoom after a button press is always in [0.1, 3]; in-range values are kept, values outside go to the nearer bound |
| Canvas.ClampZoomMonotone | src/components/canvas/EditorCanvas.tsx:143 | a larger requested zoom never yields a smaller clamped zoom |
| Canvas.FitZoom | src/components/canvas/EditorCanvas.tsx:46-53 | the fitted zoom is the minimum of scaleX, scaleY and the ceiling (0.3 compact / 0.8 wide, padding 0.9 / 0.8, compact below 768 px); it is one of the three and positive for a positive stage |
| Canvas.FitZoomFits | src/components/canvas/EditorCanvas.tsx:49-53 | at the fitted zoom the image takes at most the padded share of the stage on each axis |
| Canvas.FitZoomExample | src/components/canvas/EditorCanvas.tsx:46-53 | an 800 x 600 stage with a 1600 x 1200 image on a wide layout fits at 0.4 |
| Canvas.ZoomOutAfterSmallFit | src/components/canvas/EditorCanvas.tsx:53-55 | auto-fit can set a zoom of 0.048, below the buttons' minimum; one zoom-out then raises it to 0.1 |
| Canvas.EditorCanvas.constructor | src/components/canvas/EditorCanvas.tsx:31-34 | no image, the 800 x 600 initial stage, not drawing, empty buffer |
| Canvas.EditorCanvas.Resize | src/components/canvas/EditorCanvas.tsx:69-76 | the measured container size becomes the stage size |
| Canvas.EditorCanvas.MouseDown | src/components/canvas/EditorCanvas.tsx:84-103 | nothing changes unless the tool is mask and an image is loaded; then drawing starts, and the buffer restarts at the pixel when it is on the image and is left unchanged otherwise |
| Canvas.EditorCanvas.MouseMove | src/components/canvas/EditorCanvas.tsx:105-123 | while drawing with the mask tool and an image, exactly two coordinates are appended for an on-image pixel, and nothing for an off-image one; otherwise the buffer is unchanged |
| Canvas.EditorCanvas.MouseUp | src/components/canvas/EditorCanvas.tsx:125-140 | drawing ends and the buffer is cleared; exactly one stroke (the buffered points, the brush size, colour #A855F7) is appended iff drawing was on with at least 4 coordinates; otherwise the strokes are unchanged; every stored stroke stays well formed |
| Canvas.EditorCanvas.ClearBrushStrokes | src/components/canvas/EditorCanvas.tsx:214 | the eraser empties the stroke list |
| Canvas.PanAt | src/components/canvas/EditorCanvas.tsx:321-329 | the pan recorded from a stage position places the stage back at that position (`x = pan.x * zoom`) |
| Canvas.PanAtStagePosition | src/components/canvas/EditorCanvas.tsx:321-329 | recording the position of a stage drawn from a pan gives back that pan |
| Canvas.EditorCanvas.DragEnd | src/components/canvas/EditorCanvas.tsx:321-329 | with the mask tool the stage is not draggable and the pan is unchanged; otherwise the pan becomes the drop position divided by the zoom, and the stage is drawn where it was dropped |
| Canvas.PanThenZoomIn | src/components/canvas/EditorCanvas.tsx:37-65 | as written, once a drag has moved the pan off the origin, the load callback's re-runs keep the framing and two zoom-ins reach 1.0 |
| Canvas.EditorCanvas.Zoom | src/components/canvas/EditorCanvas.tsx:142-145 | the new zoom is the clamp of old zoom + delta |
| Canvas.EditorCanvas.Reset | src/components/canvas/EditorCanvas.tsx:147-159 | with an image, the zoom becomes the fitted zoom and the pan the origin; without one nothing changes |
| Canvas.EditorCanvas.ImageLoaded | src/components/canvas/EditorCanvas.tsx:37-65 | one run of the decode callback as written, whether caused by a new canvas image or by a zoom, pan or stage change: the image is shown; it is auto-fitted (and the pan reset) iff the zoom is 1 and the pan is at the origin, otherwise the zoom and pan are kept |
| Canvas.EditorCanvas.ImageDecoded | src/components/canvas/EditorCanvas.tsx:43-59 | the intended callback: the image is shown and auto-fitted only when it is decoded for a canvas image other than the last one decoded and the view is at zoom 1 with the pan at the origin; a re-run for the same image keeps the zoom and pan |
| Canvas.EditorCanvas.ImageCleared | src/components/canvas/EditorCanvas.tsx:62-64 | without a canvas image no image is displayed and none counts as decoded |
| Canvas.ZoomInSnapsBack | src/components/canvas/EditorCanvas.tsx:37-65 | as written, after a fit to 0.8, two zoom-ins reach 1.0 and the effect's next run fits the image again, so the zoom ends at 0.8 |
| Canvas.ZoomInReachesFull | src/components/canvas/EditorCanvas.tsx:43-59 | with the intended callback the same sequence ends at zoom 1.0 |
| Canvas.DragPixels | src/components/canvas/EditorCanvas.tsx:92-100 | on the 800 x 600 stage at zoom 0.8 with a 100 x 100 image, stage points (460, 335), (470, 335), (470, 345) map to pixels (10, 10), (20, 10), (20, 20), and (0, 0) is off the image |
| Canvas.DragGesture | src/components/canvas/EditorCanvas.tsx:84-140 | a mask-tool drag of three on-image points and one off-image point appends exactly one stroke of those three points and ends the gesture |
| Canvas.DragExample | src/components/canvas/EditorCanvas.tsx:43-140 | from a fresh store with brush size 20, the intended load callback (`ImageDecoded`, see Findings) fits a new 100 x 100 image at 0.8, and the drag then leaves exactly its one stroke |
| History.FindById | src/components/GenerationHistory.tsx:189-190 | `find` by id: the first element with that id; none when no element has it; a null id matches nothing |
| History.FindsMember | src/components/GenerationHistory.tsx:189-190 | every element is found by its own id, at its index or at an earlier duplicate |
| History.LastTwo | src/components/GenerationHistory.tsx:96 | the window has min(2, n) elements |
| History.LastTwoMember | src/components/GenerationHistory.tsx:96-129 | the window is the list's suffix of that length, in insertion order, so each tile is the corresponding element of the full list |
| History.FirstOutputUrl | src/components/GenerationHistory.tsx:107-108 | the first output's URL, present iff there is an output |
| History.EditDetailOf | src/components/GenerationHistory.tsx:243-300 | an edit's detail shows its instruction and time, the mask row iff maskAssetId is truthy, the mask reference, and the parent image panel iff the parent id resolves, with the parent's first output URL or '' |
| History.ResolveDetail | src/components/GenerationHistory.tsx:188-326 | a resolving generation selection shows that generation (seed shown only when truthy, its source assets); else a resolving edit selection shows that edit; the placeholder iff neither resolves |
| History.GenerationSelectionWins | src/components/GenerationHistory.tsx:189-192 | when the generation selection resolves, the edit selection does not affect the detail panel |
| History.DanglingParentTolerated | src/components/GenerationHistory.tsx:243-267 | an edit whose parent generation is missing is still shown, without the parent panel |
| History.DownloadSource | src/components/GenerationHistory.tsx:336-346 | with a truthy generation selection, that generation's non-empty first output URL if it resolves, else nothing; without one, the canvas image if non-empty; never an empty URL |
| History.ClickGenerationTile | src/components/GenerationHistory.tsx:105-110 | the tile's generation is selected; the canvas shows its first output when it has one and is unchanged otherwise; the detail panel then shows a generation |
| History.WindowGenerationShown | src/components/GenerationHistory.tsx:96-110 | selecting the generation of any window tile makes the id lookup succeed, so the detail panel shows a generation |
| History.WindowEditShown | src/components/GenerationHistory.tsx:129-143 | selecting the edit of any window tile, with the generation selection cleared, makes the detail panel show an edit |
| History.ClickEditTile | src/components/GenerationHistory.tsx:138-143 | with an output: the canvas shows it, the edit is selected, the generation selection is cleared, and the detail shows an edit; without one nothing changes |
| PromptBuilder.ToggleSection | src/components/prompt/PromptBuilder.tsx:157-159 | only the named section's flag flips (a missing flag counts as false); every other flag is kept |
| PromptBuilder.ToggleTwice | src/components/prompt/PromptBuilder.tsx:157-159 | toggling twice restores every section's expansion state |
| PromptBuilder.SelectElement | src/components/prompt/PromptBuilder.tsx:161-169 | re-choosing a category's current value removes the category; any other value sets it; other categories are untouched |
| PromptBuilder.SelectTwice | src/components/prompt/PromptBuilder.tsx:161-169 | choosing a value twice restores the selection when it was already chosen, and clears the category otherwise |
| PromptBuilder.SelectedValues | src/components/prompt/PromptBuilder.tsx:180-185 | the non-empty selected values of the keys, in key order; empty iff no key is selected |
| PromptBuilder.SelectedValuesAppend | src/components/prompt/PromptBuilder.tsx:181-185 | the values of two consecutive key lists are concatenated in order |
| PromptBuilder.SelectedValuesStep | src/components/prompt/PromptBuilder.tsx:181-185 | one more key adds its value (if selected) after all earlier ones |
| PromptBuilder.PushSelected | src/components/prompt/PromptBuilder.tsx:180-185 | the push loop appends exactly the selected values of the keys, in key order, after the parts already there |
| PromptBuilder.PromptParts | src/components/prompt/PromptBuilder.tsx:171-190 | the parts are the trimmed subject if not blank, then the selected values in the fixed category order, then the quality suffix iff anything came before |
| PromptBuilder.PromptTextEmptyIff | src/components/prompt/PromptBuilder.tsx:171-193 | the prompt is empty iff the subject is blank and no category is selected; otherwise it ends with the quality suffix |
| PromptBuilder.GeneratePrompt | src/components/prompt/PromptBuilder.tsx:171-193 | the push loop over the category order, joined with ", ", yields exactly the specified prompt text |
| PromptBuilder.HandleApply | src/components/prompt/PromptBuilder.tsx:202-208 | the generated prompt is applied iff it is non-empty |
| PromptBuilder.ApplyTemplateAsWritten | src/components/prompt/PromptBuilder.tsx:195-197 | `applyTemplate` as written: the first {{subject}} is replaced by JavaScript's substitution of the trimmed subject (or the placeholder text), with `$$`, `$&`, `` $` `` and `$'` expanded; a template without the placeholder is unchanged |
| PromptBuilder.ApplyTemplate | src/components/prompt/PromptBuilder.tsx:195-197 | the intended `applyTemplate`: the first {{subject}} is replaced by the trimmed subject verbatim, or by the placeholder text when the subject is blank; a template without the placeholder is unchanged |
| PromptBuilder.TemplatesStartWithPlaceholder | src/components/prompt/PromptBuilder.tsx:106-137 | each of the six templates begins with {{subject}} |
| PromptBuilder.ApplyTemplateAtStart | src/components/prompt/PromptBuilder.tsx:195-197 | for such a template, the result is the subject followed by the rest of the template |
| PromptBuilder.DollarSubjectCounterexample | src/components/prompt/PromptBuilder.tsx:196-197 | with the subject "$&" the code as written returns the template unchanged, unlike the verbatim insertion |
| PromptBuilder.ApplyTemplateAgrees | src/components/prompt/PromptBuilder.tsx:196-197 | for subjects without '$' the code as written and the verbatim insertion agree |
| PromptPanel.Tier | src/components/prompt/PromptPanel.tsx:261-271 | "add detail" iff the length is < 20, "adequate" iff 20 <= length < 50, "excellent" iff length >= 50 |
| PromptPanel.TierMonotone | src/components/prompt/PromptPanel.tsx:261-271 | a longer prompt never shows a lower tier |
| PromptPanel.DataUrl | src/components/prompt/PromptPanel.tsx:70 | the stored data URL starts with "data:" + type + ";base64," and ends with the payload |
| PromptPanel.ReferenceImages | src/components/prompt/PromptPanel.tsx:50-52 | the filter/map keeps at most one reference per upload, none containing the marker; empty iff no upload contains "base64," |
| PromptPanel.DataUrlReference | src/components/prompt/PromptPanel.tsx:52-70 | the reference taken from a stored data URL is exactly its base64 payload (when type and payload hold no comma) |
| PromptPanel.ReferencesOfUploads | src/components/prompt/PromptPanel.tsx:50-70 | for uploads stored as data URLs, the references are exactly their payloads, in upload order |
| PromptPanel.HandleGenerate | src/components/prompt/PromptPanel.tsx:46-63 | nothing iff the trimmed prompt is empty; in generate mode a request with the untrimmed prompt, the references (omitted, never empty), the temperature, and the seed iff it is set and non-zero; in edit or mask mode an edit with the untrimmed prompt |
| PromptPanel.HandleFileUpload | src/components/prompt/PromptPanel.tsx:65-92 | non-image or unreadable files change nothing; generate mode appends while fewer than 2 uploads; edit mode appends to the edit references while fewer than 2 and sets the canvas iff it is not truthy; mask mode sets uploads to exactly [url] and the canvas to url; both lists stay at most 2 |
| PromptPanel.HandleClearSession | src/components/prompt/PromptPanel.tsx:94-103 | prompt, uploads, edit references and strokes emptied, canvas and seed unset, temperature 0.7 |
| Gemini.Classify | src/services/geminiApi.ts:10-28 | the first class, in the order content policy, rate limit, auth, network, whose markers the message contains; none iff it contains no marker |
| Gemini.ClassifyPriority | src/services/geminiApi.ts:10-28 | a message carrying markers of several classes is reported as the earliest of them |
| Gemini.ClassMessage | src/services/geminiApi.ts:12-27 | each class has a non-empty user message |
| Gemini.ParseApiError | src/services/geminiApi.ts:7-31 | the classified message; else the raw message if non-empty; else the fixed fallback; never empty |
| Gemini.UnmarkedPassesThrough | src/services/geminiApi.ts:8-30 | a non-empty message lacking a character of every marker is returned unchanged |
| Gemini.NoResponsePassesThrough | src/services/geminiApi.ts:78-100 | the "No response from model" error survives parseApiError unchanged |
| Gemini.NoImagePassesThrough | src/services/geminiApi.ts:92-100 | the "No image generated" error survives parseApiError unchanged |
| Gemini.AppendImages | src/services/geminiApi.ts:61-68 | the images are appended as PNG inline parts, in order, after the existing contents |
| Gemini.GenerateContents | src/services/geminiApi.ts:57-69 | the content list is the prompt text followed by each reference image in order |
| Gemini.EditContents | src/services/geminiApi.ts:105-134 | the content list is the edit prompt, the original image, each reference in order, and the mask last iff it is present |
| Gemini.BuildEditPrompt | src/services/geminiApi.ts:215-225 | the prompt starts with the preamble followed by the instruction verbatim, ends with the closing sentence, and its length accounts for the mask clause iff a mask is present |
| Gemini.MaskClauseIffMask | src/services/geminiApi.ts:216-222 | the mask clause stands just before the closing sentence iff a truthy mask image is given |
| Gemini.GuidanceDoesNotEndWithClause | src/services/geminiApi.ts:222 | without the clause, the text before the closing sentence cannot end with the mask clause |
| Gemini.Payloads | src/services/geminiApi.ts:84-90 | the non-empty inlineData payloads of the parts, in order; empty iff no part carries one |
| Gemini.Extraction | src/services/geminiApi.ts:76-95 | "No response from model" iff there are no candidates; "No image generated" when the first candidate yields no payload; otherwise its payloads, all non-empty |
| Gemini.ExtractImages | src/services/geminiApi.ts:76-95 | the collecting loop yields exactly the specified extraction |
| Gemini.Reported | src/services/geminiApi.ts:97-100 | a thrown error is reported through parseApiError; an extraction failure is reported with its own message |
| Gemini.Collect | src/services/geminiApi.ts:97-100 | the try/catch yields the reported outcome |
| Gemini.GenerateImage | src/services/geminiApi.ts:55-101 | sends the generate content list and returns the reported outcome for the reply |
| Gemini.EditImage | src/services/geminiApi.ts:103-166 | sends the edit content list and returns the reported outcome for the reply |
| Text.FindFrom | src/services/geminiApi.ts:11 | the first occurrence of the pattern at or after the start index; none iff there is none |
| Text.FindFirst | src/services/geminiApi.ts:11 | `indexOf`: the first occurrence; none iff the pattern never occurs |
| Text.AbsentCharNotContained | src/services/geminiApi.ts:11-26 | a pattern holding a character the text lacks is not contained in it |
| Text.TrimStart | src/components/prompt/PromptPanel.tsx:47 | strips exactly the leading ECMAScript white space |
| Text.TrimEnd | src/components/prompt/PromptPanel.tsx:47 | strips exactly the trailing ECMAScript white space |
| Text.TrimEmptyIff | src/components/prompt/PromptPanel.tsx:47 | `trim()` is empty iff every character is white space |
| Text.TrimKeepsAbsent | src/components/prompt/PromptBuilder.tsx:196 | trimming introduces no character: one absent from the text is absent from its trim |
| Text.JoinEnds | src/components/prompt/PromptBuilder.tsx:192 | a join of a non-empty list starts with its first part and ends with its last |
| Text.JoinEmpty | src/components/prompt/PromptBuilder.tsx:192 | a join is empty for no parts, and non-empty when the last part is non-empty |
| Text.SecondField | src/components/prompt/PromptPanel.tsx:52 | `split(sep)[1]` is defined iff the separator occurs, and never contains it |
| Text.SecondFieldBounds | src/components/prompt/PromptPanel.tsx:52 | the field is a prefix of the text after the first separator, and in that text it is followed by the next separator or by nothing |
| Text.NoEarlierOccurrence | src/components/prompt/PromptPanel.tsx:52 | the text before the first occurrence of a pattern does not contain it |
| Text.ReplaceFirst | src/components/prompt/PromptBuilder.tsx:197 | no occurrence leaves the text unchanged; otherwise, at the first occurrence `i`, the result has length `|s| - |pat| + |rep|`, keeps `s[..i]`, holds the replacement at `i` and then continues with the text after the pattern, and (for a non-empty pattern) its part before `i` holds no occurrence |
| Text.SubstitutionPlain | src/components/prompt/PromptBuilder.tsx:197 | a replacement without '$' is inserted as it is |
| Text.ReplaceFirstJs | src/components/prompt/PromptBuilder.tsx:197 | JavaScript's `replace` with its `$` patterns expanded: no occurrence leaves the text unchanged; otherwise the result keeps the text before the first occurrence, which (for a non-empty pattern) holds no occurrence, and ends with the text after it |
| Text.ReplaceAgreesWithoutDollar | src/components/prompt/PromptBuilder.tsx:197 | without '$' the two replacements agree |

## Left out

- The `segmentImage` call and its JSON parsing (geminiApi.ts:168-213): the segmentation feature is not part of this model.
- The network call to the image service is not modelled. Its reply, or the message it threw, is a parameter.
- The model name sent with each request is not modelled.
- The caller's handling of results is not part of this model. This covers the `useGemini` hooks, which append to the history on success and show errors.
- The internals of the application store are not part of this model. Setters are modelled by their field assignments.
- Image decoding (`window.Image`), the resize listener and `window.innerWidth` are not modelled. The decoded size, the measured stage and the window width are parameters.
- Not modelled because they are DOM side effects with no state of the model: `document.createElement` downloads, `fetch` and blob URLs, the clipboard, `setTimeout`, the preview modal, background removal and `console.error`.
- `blobToBase64` is not part of this model. Its result is a parameter, with `None` for a rejected read.
- The builder's reset and copy buttons and the panel's dialog and visibility flags are not modelled: they are UI-only state.
- Canvas rendering (the Konva layers, the image and stroke drawing, the cursor style) is not modelled: it is rendering only. The stage's position and the pan recorded at the end of a drag are modelled (`Canvas.EditorCanvas.DragEnd`); the drag movement itself is left to the library.
- The temperature and seed inputs' `parseFloat`/`parseInt` parsing is not modelled.
- Canvas.ToImageSpace: coordinates are exact reals, not IEEE doubles, so rounding at the image border is not modelled.
- Canvas.FitZoom: requires a positive image size. A zero-size image would divide by zero in JavaScript.
- Canvas.EditorCanvas.Valid: requires a positive stage size. A container measured at zero size is not modelled.
- Canvas.EditorCanvas.MouseUp: the stroke id (`stroke-` and `Date.now()`) is a parameter.
- Canvas.ZoomInSnapsBack: the zoom steps are added as exact reals, not IEEE doubles.
- Canvas.EditorCanvas.MouseMove and PromptPanel.HandleFileUpload: each handler is one atomic step on the latest state. The source's handlers read render-time snapshots. `handleMouseMove` builds the new buffer from its closure's `currentStroke`, so two moves delivered before a re-render lose a point. `handleFileUpload` reads the tool and the list lengths from the render in which it started, and a tool change or a second upload during its `await` is decided on those stale values. The load effect's decode callback reads the stage size and zoom captured when the effect ran; `Canvas.EditorCanvas.ImageLoaded` and `Canvas.EditorCanvas.ImageDecoded` read the current ones, since the effect runs again after each of their changes. Neither stale closures nor state changes during the `await` are modelled.
- PromptPanel.Tier: string lengths count Dafny characters. JavaScript counts UTF-16 code units, so the tiers can differ for text outside the Basic Multilingual Plane.
- PromptPanel.DataUrlReference: the round trip is proved only for MIME types and payloads without commas. Base64 never holds one.
- History.ResolveDetail: only the fields the panel displays are modelled, not their formatting (localized time, truncation).

## Findings

| source | as written | input that shows it | evidently intended | confidence | as-written member | corrected member |
|---|---|---|---|---|---|---|
| src/components/prompt/PromptBuilder.tsx:196-197 | `template.replace('{{subject}}', subject)` passes the user's subject as a replacement string, so JavaScript expands `$&`, `$$`, `` $` `` and `$'` in it | subject `$&` with any of the six templates: the result is the template with `{{subject}}` still in it (`PromptBuilder.DollarSubjectCounterexample`) | the subject is inserted as typed | medium, not executed | PromptBuilder.ApplyTemplateAsWritten | PromptBuilder.ApplyTemplate |
| src/components/canvas/EditorCanvas.tsx:37-65 | the load effect lists `canvasZoom`, `canvasPan` and `stageSize` among its dependencies, so it decodes the image again after each of their changes and fits it again whenever the view is back at zoom 1 with the pan at the origin | wide layout, 800 x 600 stage, new 100 x 100 image: the fit gives 0.8; two zoom-ins give 0.9 and then 1.0 (exact reals), and the next run sets the zoom back to 0.8, so 100% cannot be reached (`Canvas.ZoomInSnapsBack`) | only a new image is auto-fitted, as the comment at line 43 says | medium, not executed | Canvas.EditorCanvas.ImageLoaded | Canvas.EditorCanvas.ImageDecoded |
