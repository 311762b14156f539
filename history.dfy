/**
  The history panel: the recency windows of generation and edit tiles, tile clicks that move the
  selection and the canvas image, detail resolution for the selection, and the download source.
 */
module History {
  import opened Wrappers
  import opened Text
  import opened Entities
  import opened Store

  // ----- Lookups -----

  /**
    `xs.find(x => x.id === id)`, as an index into the list's ids: the first position holding
    `id`. A missing id (`null`) matches nothing.
   */
  function FindById(ids: seq<string>, id: Option<string>): (r: Option<nat>)
    ensures r.Some? ==> r.value < |ids| && id == Some(ids[r.value])
    ensures r.Some? ==> forall j :: 0 <= j < r.value ==> id != Some(ids[j])
    ensures r.None? <==> forall j :: 0 <= j < |ids| ==> id != Some(ids[j])
  {
    if |ids| == 0 then None
    else if id == Some(ids[0]) then Some(0)
    else match FindById(ids[1..], id)
      case None => None
      case Some(k) => Some(k + 1)
  }

  /** `xs.slice(-2)`: the last two elements in insertion order, or all of them when fewer. */
  function LastTwo<T>(xs: seq<T>): (r: seq<T>)
    ensures |r| == if |xs| < 2 then |xs| else 2
  {
    if |xs| <= 2 then xs else xs[|xs| - 2..]
  }

  /** The URL of the first output asset (`outputAssets[0]?.url`), if there is one. */
  function FirstOutputUrl(outputs: seq<Asset>): (r: Option<string>)
    ensures r.Some? <==> |outputs| > 0
    ensures r.Some? ==> r.value == outputs[0].url
  {
    if |outputs| > 0 then Some(outputs[0].url) else None
  }

  // ----- Detail resolution -----

  /** What the detail panel shows. */
  datatype Detail =
    | GenerationDetail(
        prompt: string,
        modelVersion: string,
        /** Shown only when the seed is truthy, i.e. present and not 0. */
        seedShown: Option<int>,
        /** The reference-image panel lists these; it is shown iff there are any. */
        references: seq<Asset>)
    | EditDetail(
        instruction: string,
        timestamp: int,
        /** The "mask applied" row, shown iff `maskAssetId` is truthy. */
        maskApplied: bool,
        /** The parent image panel with its image URL (`''` without outputs), when the parent resolves. */
        parentImage: Option<string>,
        maskReference: Option<Asset>)
    | Placeholder

  function SeedShown(seed: Option<int>): Option<int> {
    if seed.Some? && seed.value != 0 then seed else None
  }

  /** The detail record of an edit; its parent generation is looked up and may be absent. */
  function EditDetailOf(generations: seq<Generation>, e: Edit): (d: Detail)
    ensures d.EditDetail? && d.instruction == e.instruction && d.timestamp == e.timestamp
    ensures d.maskApplied <==> Truthy(e.maskAssetId)
    ensures d.maskReference == e.maskReferenceAsset
    ensures d.parentImage.Some? <==> FindById(GenerationIds(generations), e.parentGenerationId).Some?
    ensures d.parentImage.Some? ==>
      d.parentImage.value ==
        FirstOutputUrl(generations[FindById(GenerationIds(generations), e.parentGenerationId).value]
                       .outputAssets).GetOr("")
  {
    var parent := match FindById(GenerationIds(generations), e.parentGenerationId)
                  case None => None
                  case Some(i) => Some(FirstOutputUrl(generations[i].outputAssets).GetOr(""));
    EditDetail(e.instruction, e.timestamp, Truthy(e.maskAssetId), parent, e.maskReferenceAsset)
  }

  /**
    The detail panel for the current selection: the selected generation if its id resolves,
    otherwise the selected edit if its id resolves, otherwise the placeholder.
   */
  function ResolveDetail(generations: seq<Generation>, edits: seq<Edit>,
                         selectedGenerationId: Option<string>, selectedEditId: Option<string>): (d: Detail)
    ensures FindById(GenerationIds(generations), selectedGenerationId).Some? ==>
      var g := generations[FindById(GenerationIds(generations), selectedGenerationId).value];
      d == GenerationDetail(g.prompt, g.modelVersion, SeedShown(g.parameters.seed), g.sourceAssets)
    ensures (FindById(GenerationIds(generations), selectedGenerationId).None?
             && FindById(EditIds(edits), selectedEditId).Some?) ==>
      d == EditDetailOf(generations, edits[FindById(EditIds(edits), selectedEditId).value])
    ensures d.Placeholder? <==>
      FindById(GenerationIds(generations), selectedGenerationId).None?
      && FindById(EditIds(edits), selectedEditId).None?
  {
    match FindById(GenerationIds(generations), selectedGenerationId)
    case Some(i) =>
      var g := generations[i];
      GenerationDetail(g.prompt, g.modelVersion, SeedShown(g.parameters.seed), g.sourceAssets)
    case None =>
      match FindById(EditIds(edits), selectedEditId)
      case Some(j) => EditDetailOf(generations, edits[j])
      case None => Placeholder
  }

  /** A resolving generation selection wins: the edit selection does not matter then. */
  lemma GenerationSelectionWins(generations: seq<Generation>, edits: seq<Edit>,
                                selGen: Option<string>, selEdit1: Option<string>, selEdit2: Option<string>)
    requires FindById(GenerationIds(generations), selGen).Some?
    ensures ResolveDetail(generations, edits, selGen, selEdit1)
         == ResolveDetail(generations, edits, selGen, selEdit2)
    ensures ResolveDetail(generations, edits, selGen, selEdit1).GenerationDetail?
  {
  }

  /**
    An edit whose parent id resolves to no generation is still shown, with its instruction,
    time and mask fields, and without the parent image panel.
   */
  lemma DanglingParentTolerated(generations: seq<Generation>, edits: seq<Edit>, selEdit: Option<string>)
    requires FindById(EditIds(edits), selEdit).Some?
    requires FindById(GenerationIds(generations), edits[FindById(EditIds(edits), selEdit).value].parentGenerationId).None?
    ensures var d := ResolveDetail(generations, edits, None, selEdit);
      var e := edits[FindById(EditIds(edits), selEdit).value];
      d.EditDetail? && d.parentImage == None && d.instruction == e.instruction
      && d.timestamp == e.timestamp && d.maskReference == e.maskReferenceAsset
  {
  }

  /** An id in the list is always found (perhaps at an earlier duplicate). */
  lemma {:induction false} FindsMember(ids: seq<string>, k: nat)
    requires k < |ids|
    ensures FindById(ids, Some(ids[k])).Some?
    ensures FindById(ids, Some(ids[k])).value <= k
  {
    if k > 0 && ids[k] != ids[0] {
      FindsMember(ids[1..], k - 1);
    }
  }

  /** The window is the list's suffix of that length, so every tile is an element of the full list. */
  lemma LastTwoMember<T>(xs: seq<T>, k: nat)
    requires k < |LastTwo(xs)|
    ensures LastTwo(xs) == xs[|xs| - |LastTwo(xs)|..]
    ensures |xs| - |LastTwo(xs)| + k < |xs| && LastTwo(xs)[k] == xs[|xs| - |LastTwo(xs)| + k]
  {
  }

  // ----- Download -----

  /**
    What the download button downloads (`None`: nothing): with a truthy generation selection,
    that generation's first output URL when it resolves and is not empty; otherwise the canvas
    image when it is not empty.
   */
  function DownloadSource(generations: seq<Generation>, selectedGenerationId: Option<string>,
                          canvasImage: Option<string>): (r: Option<string>)
    ensures r.Some? ==> r.value != ""
    ensures Truthy(selectedGenerationId) ==>
      (r.Some? <==> (FindById(GenerationIds(generations), selectedGenerationId).Some?
                     && Truthy(FirstOutputUrl(generations[FindById(GenerationIds(generations), selectedGenerationId).value].outputAssets))))
    ensures Truthy(selectedGenerationId) && r.Some? ==>
      r == FirstOutputUrl(generations[FindById(GenerationIds(generations), selectedGenerationId).value].outputAssets)
    ensures !Truthy(selectedGenerationId) ==> r == (if Truthy(canvasImage) then canvasImage else None)
  {
    var url := if Truthy(selectedGenerationId) then
                 match FindById(GenerationIds(generations), selectedGenerationId)
                 case None => None
                 case Some(i) => FirstOutputUrl(generations[i].outputAssets)
               else canvasImage;
    if Truthy(url) then url else None
  }

  // ----- Tile clicks -----

  /**
    Clicking generation tile `k` of the window selects that generation and shows its first
    output on the canvas when it has one; the canvas is left as it was otherwise, and the edit
    selection is not touched. The detail panel then shows a generation.
   */
  method ClickGenerationTile(store: AppStore, k: nat)
    requires store.Valid()
    requires k < |LastTwo(store.generations)|
    modifies store`selectedGenerationId, store`canvasImage
    ensures store.Valid()
    ensures store.selectedGenerationId == Some(LastTwo(store.generations)[k].id)
    ensures store.canvasImage ==
      if |LastTwo(store.generations)[k].outputAssets| > 0
      then Some(LastTwo(store.generations)[k].outputAssets[0].url) else old(store.canvasImage)
    ensures ResolveDetail(store.generations, store.edits, store.selectedGenerationId, store.selectedEditId).GenerationDetail?
  {
    var g := LastTwo(store.generations)[k];
    store.selectedGenerationId := Some(g.id);
    if |g.outputAssets| > 0 {
      store.canvasImage := Some(g.outputAssets[0].url);
    }
    WindowGenerationShown(store.generations, store.edits, k, store.selectedEditId);
  }

  /**
    Clicking edit tile `k` of the window, when that edit has an output: its first output goes
    on the canvas, the edit is selected and the generation selection is cleared, so the detail
    panel shows an edit. An edit without outputs changes nothing.
   */
  method ClickEditTile(store: AppStore, k: nat)
    requires store.Valid()
    requires k < |LastTwo(store.edits)|
    modifies store`selectedGenerationId, store`selectedEditId, store`canvasImage
    ensures store.Valid()
    ensures |LastTwo(store.edits)[k].outputAssets| == 0 ==>
      store.canvasImage == old(store.canvasImage)
      && store.selectedEditId == old(store.selectedEditId)
      && store.selectedGenerationId == old(store.selectedGenerationId)
    ensures |LastTwo(store.edits)[k].outputAssets| > 0 ==>
      store.canvasImage == Some(LastTwo(store.edits)[k].outputAssets[0].url)
      && store.selectedEditId == Some(LastTwo(store.edits)[k].id)
      && store.selectedGenerationId == None
      && ResolveDetail(store.generations, store.edits, store.selectedGenerationId, store.selectedEditId).EditDetail?
  {
    var e := LastTwo(store.edits)[k];
    if |e.outputAssets| > 0 {
      store.canvasImage := Some(e.outputAssets[0].url);
      store.selectedEditId := Some(e.id);
      store.selectedGenerationId := None;
      WindowEditShown(store.generations, store.edits, k);
    }
  }

  /** Selecting the generation of window tile `k` makes the detail panel show a generation. */
  lemma WindowGenerationShown(generations: seq<Generation>, edits: seq<Edit>, k: nat, selEdit: Option<string>)
    requires k < |LastTwo(generations)|
    ensures ResolveDetail(generations, edits, Some(LastTwo(generations)[k].id), selEdit).GenerationDetail?
  {
    LastTwoMember(generations, k);
    FindsMember(GenerationIds(generations), |generations| - |LastTwo(generations)| + k);
  }

  /**
    Selecting the edit of window tile `k`, with the generation selection cleared, makes the
    detail panel show an edit.
   */
  lemma WindowEditShown(generations: seq<Generation>, edits: seq<Edit>, k: nat)
    requires k < |LastTwo(edits)|
    ensures ResolveDetail(generations, edits, None, Some(LastTwo(edits)[k].id)).EditDetail?
  {
    LastTwoMember(edits, k);
    FindsMember(EditIds(edits), |edits| - |LastTwo(edits)| + k);
  }
}
