/** The records the session holds: geometry, strokes, assets, generations and edits. */
module Entities {
  import opened Wrappers

  /** A point, in stage units or in image pixels depending on where it is used. */
  datatype Point = Point(x: real, y: real)

  /** A width and height: of the stage (the canvas viewport) or of a decoded image. */
  datatype Size = Size(width: real, height: real)

  predicate Positive(s: Size) {
    s.width > 0.0 && s.height > 0.0
  }

  const Origin := Point(0.0, 0.0)

  /** The colour every mask stroke is drawn in. */
  const MaskColor := "#A855F7"

  /** One finished freehand mask stroke: a flat `[x0, y0, x1, y1, ...]` list of image pixels. */
  datatype Stroke = Stroke(id: string, points: seq<real>, brushSize: int, color: string)

  /** A finished stroke holds at least two points, as whole (x, y) pairs, in the mask colour. */
  predicate WellFormedStroke(s: Stroke) {
    |s.points| >= 4 && |s.points| % 2 == 0 && s.color == MaskColor
  }

  /** The three tool modes of the editor: `'generate'`, `'edit'` and `'mask'`. */
  datatype Tool = GenerateTool | EditTool | MaskTool

  /** An image artifact, addressed by a URL or a data URL. */
  datatype Asset = Asset(id: string, url: string)

  datatype Parameters = Parameters(temperature: real, seed: Option<int>)

  /** A text-to-image creation event. */
  datatype Generation = Generation(
    id: string,
    prompt: string,
    modelVersion: string,
    parameters: Parameters,
    sourceAssets: seq<Asset>,
    outputAssets: seq<Asset>,
    timestamp: int)

  /** An image-modification event; its parent, when recorded, is a generation id. */
  datatype Edit = Edit(
    id: string,
    parentGenerationId: Option<string>,
    maskAssetId: Option<string>,
    maskReferenceAsset: Option<Asset>,
    instruction: string,
    outputAssets: seq<Asset>,
    timestamp: int)

  /** The ids of the generations, position by position. */
  function GenerationIds(gs: seq<Generation>): (r: seq<string>)
    ensures |r| == |gs| && forall i :: 0 <= i < |gs| ==> r[i] == gs[i].id
  {
    if |gs| == 0 then [] else GenerationIds(gs[..|gs| - 1]) + [gs[|gs| - 1].id]
  }

  /** The ids of the edits, position by position. */
  function EditIds(es: seq<Edit>): (r: seq<string>)
    ensures |r| == |es| && forall i :: 0 <= i < |es| ==> r[i] == es[i].id
  {
    if |es| == 0 then [] else EditIds(es[..|es| - 1]) + [es[|es| - 1].id]
  }
}
