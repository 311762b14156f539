/**
  The application store the components read and write. Only the fields and the setter effects
  the modelled components rely on are here; each component method assigns the fields the
  corresponding setter changes, and its `modifies` clause names exactly those fields.
 */
module Store {
  import opened Wrappers
  import opened Entities

  /** The temperature a cleared session returns to. */
  const DefaultTemperature: real := 0.7

  /** At most this many images are kept in each upload list. */
  const MaxUploads: nat := 2

  class AppStore {
    var canvasImage: Option<string>
    var canvasZoom: real
    var canvasPan: Point
    var brushStrokes: seq<Stroke>
    var brushSize: int
    var selectedTool: Tool
    var selectedGenerationId: Option<string>
    var selectedEditId: Option<string>
    var currentPrompt: string
    var temperature: real
    var seed: Option<int>
    var uploadedImages: seq<string>
    var editReferenceImages: seq<string>
    /** The current project's generations and edits, in insertion order (empty without a project). */
    var generations: seq<Generation>
    var edits: seq<Edit>

    /**
      What the modelled operations keep: the zoom is positive, every stored stroke is well
      formed, and each upload list holds at most two images.
     */
    ghost predicate Valid()
      reads this
    {
      && canvasZoom > 0.0
      && (forall i :: 0 <= i < |brushStrokes| ==> WellFormedStroke(brushStrokes[i]))
      && |uploadedImages| <= MaxUploads
      && |editReferenceImages| <= MaxUploads
    }

    /** A fresh session: no image, zoom 1 with the pan at the origin, nothing selected or uploaded. */
    constructor (brush: int)
      ensures Valid()
      ensures canvasImage == None && canvasZoom == 1.0 && canvasPan == Origin
      ensures brushStrokes == [] && brushSize == brush && selectedTool == GenerateTool
      ensures selectedGenerationId == None && selectedEditId == None
      ensures currentPrompt == "" && temperature == DefaultTemperature && seed == None
      ensures uploadedImages == [] && editReferenceImages == []
      ensures generations == [] && edits == []
    {
      canvasImage := None;
      canvasZoom := 1.0;
      canvasPan := Origin;
      brushStrokes := [];
      brushSize := brush;
      selectedTool := GenerateTool;
      selectedGenerationId := None;
      selectedEditId := None;
      currentPrompt := "";
      temperature := DefaultTemperature;
      seed := None;
      uploadedImages := [];
      editReferenceImages := [];
      generations := [];
      edits := [];
    }
  }
}
