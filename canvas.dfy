/**
  The editing canvas: conversion of pointer positions to image pixels, the zoom clamp, the
  auto-fit of a loaded image, and the mask-stroke gesture (idle / drawing) that accumulates a
  flat coordinate buffer and appends finished strokes to the store.
 */
module Canvas {
  import opened Wrappers
  import opened Entities
  import opened Store

  // ----- Geometry -----

  /**
    Where the image's top-left corner sits on the stage, in unscaled stage units: the image is
    centred in the stage's extent divided by the zoom.
   */
  function ImageOffset(stage: Size, zoom: real, image: Size): (o: Point)
    requires zoom > 0.0
    ensures o.x + image.width / 2.0 == stage.width / zoom / 2.0
    ensures o.y + image.height / 2.0 == stage.height / zoom / 2.0
  {
    Point((stage.width / zoom - image.width) / 2.0, (stage.height / zoom - image.height) / 2.0)
  }

  /** The point lies on the image, borders included. */
  predicate InImage(p: Point, image: Size) {
    0.0 <= p.x <= image.width && 0.0 <= p.y <= image.height
  }

  /**
    The image pixel under a pointer given in unscaled stage units, or `None` when the pointer is
    off the image: the pointer minus the centring offset, accepted only inside the image.
   */
  function ToImageSpace(pointer: Point, stage: Size, zoom: real, image: Size): (r: Option<Point>)
    requires zoom > 0.0
    ensures r.Some? ==> InImage(r.value, image)
    ensures r.Some? ==> ImageToStage(r.value, stage, zoom, image) == pointer
    ensures r.None? <==> !InImage(Point(pointer.x - ImageOffset(stage, zoom, image).x,
                                        pointer.y - ImageOffset(stage, zoom, image).y), image)
  {
    var o := ImageOffset(stage, zoom, image);
    var p := Point(pointer.x - o.x, pointer.y - o.y);
    if InImage(p, image) then Some(p) else None
  }

  /** The stage position of an image pixel: the inverse of the conversion above. */
  function ImageToStage(p: Point, stage: Size, zoom: real, image: Size): Point
    requires zoom > 0.0
  {
    var o := ImageOffset(stage, zoom, image);
    Point(p.x + o.x, p.y + o.y)
  }

  /** Every pixel of the image is reached by exactly the stage position that displays it. */
  lemma ToImageSpaceRoundTrip(q: Point, stage: Size, zoom: real, image: Size)
    requires zoom > 0.0
    requires InImage(q, image)
    ensures ToImageSpace(ImageToStage(q, stage, zoom, image), stage, zoom, image) == Some(q)
  {
  }

  /** The centre of the image is displayed at the centre of the (unscaled) stage. */
  lemma ImageCentred(stage: Size, zoom: real, image: Size)
    requires zoom > 0.0
    ensures ImageToStage(Point(image.width / 2.0, image.height / 2.0), stage, zoom, image)
         == Point(stage.width / zoom / 2.0, stage.height / zoom / 2.0)
  {
  }

  // ----- Zoom -----

  const MinZoom: real := 0.1
  const MaxZoom: real := 3.0

  /** `Math.max(0.1, Math.min(3, z))`: the zoom buttons keep the zoom in [0.1, 3]. */
  function ClampZoom(z: real): (r: real)
    ensures MinZoom <= r <= MaxZoom
    ensures MinZoom <= z <= MaxZoom ==> r == z
    ensures z < MinZoom ==> r == MinZoom
    ensures z > MaxZoom ==> r == MaxZoom
  {
    if z < MinZoom then MinZoom else if z > MaxZoom then MaxZoom else z
  }

  /** Clamping preserves the order of zoom values: a larger requested zoom never yields a smaller one. */
  lemma ClampZoomMonotone(z: real, w: real)
    requires z <= w
    ensures ClampZoom(z) <= ClampZoom(w)
  {
  }

  // ----- Auto-fit -----

  /** The layout counts as compact (mobile) when the window is narrower than 768 pixels. */
  predicate IsCompact(innerWidth: int) {
    innerWidth < 768
  }

  /** The share of the stage the fitted image may take: 0.9 on compact layouts, 0.8 otherwise. */
  function FitPadding(innerWidth: int): real {
    if IsCompact(innerWidth) then 0.9 else 0.8
  }

  /** The largest zoom auto-fit picks: 0.3 on compact layouts, 0.8 otherwise. */
  function FitCeiling(innerWidth: int): real {
    if IsCompact(innerWidth) then 0.3 else 0.8
  }

  /**
    The auto-fit zoom `Math.min(scaleX, scaleY, maxZoom)`: the largest zoom not above the
    ceiling at which the padded stage holds the image on both axes.
   */
  function FitZoom(stage: Size, image: Size, innerWidth: int): (z: real)
    requires Positive(image)
    ensures z <= stage.width * FitPadding(innerWidth) / image.width
    ensures z <= stage.height * FitPadding(innerWidth) / image.height
    ensures z <= FitCeiling(innerWidth)
    ensures z == stage.width * FitPadding(innerWidth) / image.width
         || z == stage.height * FitPadding(innerWidth) / image.height
         || z == FitCeiling(innerWidth)
    ensures Positive(stage) ==> z > 0.0
  {
    var padding := FitPadding(innerWidth);
    var scaleX := stage.width * padding / image.width;
    var scaleY := stage.height * padding / image.height;
    var m := if scaleX < scaleY then scaleX else scaleY;
    if m < FitCeiling(innerWidth) then m else FitCeiling(innerWidth)
  }

  /** At the fitted zoom the image takes at most the padded share of the stage on each axis. */
  lemma FitZoomFits(stage: Size, image: Size, innerWidth: int)
    requires Positive(image)
    ensures FitZoom(stage, image, innerWidth) * image.width <= stage.width * FitPadding(innerWidth)
    ensures FitZoom(stage, image, innerWidth) * image.height <= stage.height * FitPadding(innerWidth)
  {
    var z := FitZoom(stage, image, innerWidth);
    var p := FitPadding(innerWidth);
    MulLeq(z, stage.width * p / image.width, image.width);
    MulLeq(z, stage.height * p / image.height, image.height);
  }

  lemma MulLeq(a: real, b: real, c: real)
    requires a <= b && c > 0.0
    ensures a * c <= b * c
  {
  }

  /** An 800 x 600 stage and a 1600 x 1200 image on a wide layout fit at zoom 0.4. */
  lemma FitZoomExample()
    ensures FitZoom(Size(800.0, 600.0), Size(1600.0, 1200.0), 1024) == 0.4
  {
  }

  /**
    Auto-fit does not clamp to the zoom buttons' range: a 10000 x 10000 image fits an 800 x 600
    stage at 0.048, and one press of zoom-out (a step of -0.1) then raises the zoom to 0.1.
   */
  lemma ZoomOutAfterSmallFit()
    ensures FitZoom(Size(800.0, 600.0), Size(10000.0, 10000.0), 1024) == 0.048
    ensures ClampZoom(0.048 - 0.1) == 0.1 > 0.048
  {
  }

  // ----- The canvas component -----

  /** The stage's own position for a pan and zoom: the pan is kept in unscaled units. */
  function StagePosition(pan: Point, zoom: real): Point {
    Point(pan.x * zoom, pan.y * zoom)
  }

  /** The pan recorded when a drag leaves the stage at `stage`: the position divided by the zoom. */
  function PanAt(stage: Point, zoom: real): (pan: Point)
    requires zoom > 0.0
    ensures StagePosition(pan, zoom) == stage
  {
    Point(stage.x / zoom, stage.y / zoom)
  }

  /** Recording the stage's position as a pan gives back the pan it was drawn from. */
  lemma PanAtStagePosition(pan: Point, zoom: real)
    requires zoom > 0.0
    ensures PanAt(StagePosition(pan, zoom), zoom) == pan
  {
  }

  /** The stage size before the container has been measured. */
  const InitialStage := Size(800.0, 600.0)

  class EditorCanvas {
    const store: AppStore
    /** The decoded image's size, once it has loaded. */
    var image: Option<Size>
    var stageSize: Size
    var isDrawing: bool
    /** The gesture's flat coordinate buffer `[x0, y0, x1, y1, ...]`, in image pixels. */
    var currentStroke: seq<real>
    /**
      The canvas image the displayed image was last decoded from; only the intended auto-fit
      (`ImageDecoded`) consults it.
     */
    var decodedFor: Option<string>

    /**
      Sizes are positive, the buffer holds whole points, and it is empty whenever no gesture is
      in progress.
     */
    ghost predicate Valid()
      reads this, store
    {
      && store.Valid()
      && Positive(stageSize)
      && (image.Some? ==> Positive(image.value))
      && |currentStroke| % 2 == 0
      && (!isDrawing ==> currentStroke == [])
    }

    constructor (s: AppStore)
      requires s.Valid()
      ensures Valid()
      ensures store == s && image == None && stageSize == InitialStage
      ensures !isDrawing && currentStroke == [] && decodedFor == None
    {
      store := s;
      image := None;
      decodedFor := None;
      stageSize := InitialStage;
      isDrawing := false;
      currentStroke := [];
    }

    /** The image pixel under the pointer, for the current stage size, zoom and image. */
    function PointerPixel(pointer: Point): Option<Point>
      reads this`image, this`stageSize, store`canvasZoom
      requires store.canvasZoom > 0.0 && image.Some?
    {
      ToImageSpace(pointer, stageSize, store.canvasZoom, image.value)
    }

    /** The container was measured (the resize listener). */
    method Resize(size: Size)
      requires Valid() && Positive(size)
      modifies this`stageSize
      ensures Valid() && stageSize == size
    {
      stageSize := size;
    }

    /**
      Mouse-down: nothing happens unless the mask tool is active and an image is loaded; then a
      gesture starts, and the buffer restarts at the pointer's pixel if it is on the image and
      is left as it was otherwise.
     */
    method MouseDown(pointer: Point)
      requires Valid()
      modifies this`isDrawing, this`currentStroke
      ensures Valid()
      ensures !(store.selectedTool == MaskTool && image.Some?) ==>
        isDrawing == old(isDrawing) && currentStroke == old(currentStroke)
      ensures store.selectedTool == MaskTool && image.Some? ==>
        isDrawing &&
        currentStroke == match PointerPixel(pointer)
                         case Some(p) => [p.x, p.y]
                         case None => old(currentStroke)
    {
      if store.selectedTool != MaskTool || image.None? {
        return;
      }
      isDrawing := true;
      var p := ToImageSpace(pointer, stageSize, store.canvasZoom, image.value);
      if p.Some? {
        currentStroke := [p.value.x, p.value.y];
      }
    }

    /**
      Mouse-move: during a gesture with the mask tool and an image, the pointer's pixel is
      appended as two coordinates when it is on the image; off-image positions are skipped and
      the gesture goes on.
     */
    method MouseMove(pointer: Point)
      requires Valid()
      modifies this`currentStroke
      ensures Valid()
      ensures !(isDrawing && store.selectedTool == MaskTool && image.Some?) ==>
        currentStroke == old(currentStroke)
      ensures isDrawing && store.selectedTool == MaskTool && image.Some? ==>
        currentStroke == match PointerPixel(pointer)
                         case Some(p) => old(currentStroke) + [p.x, p.y]
                         case None => old(currentStroke)
    {
      if !isDrawing || store.selectedTool != MaskTool || image.None? {
        return;
      }
      var p := ToImageSpace(pointer, stageSize, store.canvasZoom, image.value);
      if p.Some? {
        currentStroke := currentStroke + [p.value.x, p.value.y];
      }
    }

    /**
      Mouse-up: the gesture ends and the buffer is emptied; a buffer of at least four
      coordinates (two points) taken during a gesture becomes one new stroke with the current
      brush size and the mask colour, appended to the store's strokes. `id` is the stroke's
      identity (`stroke-` and the clock reading).
     */
    method MouseUp(id: string)
      requires Valid()
      modifies this`isDrawing, this`currentStroke, store`brushStrokes
      ensures Valid()
      ensures !isDrawing && currentStroke == []
      ensures store.brushStrokes ==
        if old(isDrawing) && |old(currentStroke)| >= 4
        then old(store.brushStrokes) + [Stroke(id, old(currentStroke), store.brushSize, MaskColor)]
        else old(store.brushStrokes)
    {
      if !isDrawing || |currentStroke| < 4 {
        isDrawing := false;
        currentStroke := [];
        return;
      }
      isDrawing := false;
      store.brushStrokes := store.brushStrokes + [Stroke(id, currentStroke, store.brushSize, MaskColor)];
      currentStroke := [];
    }

    /** The eraser button: all strokes are removed, whatever the gesture state. */
    method ClearBrushStrokes()
      requires Valid()
      modifies store`brushStrokes
      ensures Valid() && store.brushStrokes == []
    {
      store.brushStrokes := [];
    }

    /** A zoom button: the zoom moves by `delta` and is clamped to [0.1, 3]. */
    method Zoom(delta: real)
      requires Valid()
      modifies store`canvasZoom
      ensures Valid()
      ensures store.canvasZoom == ClampZoom(old(store.canvasZoom) + delta)
    {
      store.canvasZoom := ClampZoom(store.canvasZoom + delta);
    }

    /**
      The end of a drag of the stage, which has moved to `stage`: the stage is draggable only
      when the mask tool is not active, and then the pan becomes the stage's position divided
      by the zoom, so that the stage is drawn where it was dropped.
     */
    method DragEnd(stage: Point)
      requires Valid()
      modifies store`canvasPan
      ensures Valid()
      ensures store.selectedTool == MaskTool ==> store.canvasPan == old(store.canvasPan)
      ensures store.selectedTool != MaskTool ==>
        store.canvasPan == PanAt(stage, store.canvasZoom)
        && StagePosition(store.canvasPan, store.canvasZoom) == stage
    {
      if store.selectedTool != MaskTool {
        store.canvasPan := PanAt(stage, store.canvasZoom);
      }
    }

    /** The reset button: with an image loaded, auto-fit the zoom and put the pan at the origin. */
    method Reset(innerWidth: int)
      requires Valid()
      modifies store`canvasZoom, store`canvasPan
      ensures Valid()
      ensures image.Some? ==>
        store.canvasZoom == FitZoom(stageSize, image.value, innerWidth) && store.canvasPan == Origin
      ensures image.None? ==>
        store.canvasZoom == old(store.canvasZoom) && store.canvasPan == old(store.canvasPan)
    {
      if image.Some? {
        store.canvasZoom := FitZoom(stageSize, image.value, innerWidth);
        store.canvasPan := Origin;
      }
    }

    /**
      One run of the load effect's decode callback, as written, for an image of size `img`: it
      becomes the displayed image, and it is auto-fitted when the view is at zoom 1 with the pan
      at the origin. The effect depends on the zoom, the pan and the stage size as well as on the
      canvas image, so while a canvas image is set it decodes the same image again after each of
      their changes and this callback runs again: whenever the view returns to zoom 1 with the
      pan at the origin, the image is fitted again.
     */
    method ImageLoaded(img: Size, innerWidth: int)
      requires Valid() && Positive(img)
      modifies this`image, store`canvasZoom, store`canvasPan
      ensures Valid() && image == Some(img)
      ensures old(store.canvasZoom) == 1.0 && old(store.canvasPan) == Origin ==>
        store.canvasZoom == FitZoom(stageSize, img, innerWidth) && store.canvasPan == Origin
      ensures !(old(store.canvasZoom) == 1.0 && old(store.canvasPan) == Origin) ==>
        store.canvasZoom == old(store.canvasZoom) && store.canvasPan == old(store.canvasPan)
    {
      image := Some(img);
      if store.canvasZoom == 1.0 && store.canvasPan == Origin {
        store.canvasZoom := FitZoom(stageSize, img, innerWidth);
        store.canvasPan := Origin;
      }
    }

    /**
      The decode callback as intended: the image is auto-fitted only when it was decoded for a
      canvas image other than the one last decoded and the view is at zoom 1 with the pan at the
      origin. A run caused by a change of the zoom, the pan or the stage size keeps the framing.
     */
    method ImageDecoded(img: Size, innerWidth: int)
      requires Valid() && Positive(img)
      modifies this`image, this`decodedFor, store`canvasZoom, store`canvasPan
      ensures Valid() && image == Some(img) && decodedFor == store.canvasImage
      ensures old(decodedFor) != store.canvasImage && old(store.canvasZoom) == 1.0 && old(store.canvasPan) == Origin ==>
        store.canvasZoom == FitZoom(stageSize, img, innerWidth) && store.canvasPan == Origin
      ensures !(old(decodedFor) != store.canvasImage && old(store.canvasZoom) == 1.0 && old(store.canvasPan) == Origin) ==>
        store.canvasZoom == old(store.canvasZoom) && store.canvasPan == old(store.canvasPan)
    {
      image := Some(img);
      if decodedFor != store.canvasImage && store.canvasZoom == 1.0 && store.canvasPan == Origin {
        store.canvasZoom := FitZoom(stageSize, img, innerWidth);
        store.canvasPan := Origin;
      }
      decodedFor := store.canvasImage;
    }

    /** The canvas image was unset: no image is displayed, and none counts as decoded. */
    method ImageCleared()
      requires Valid()
      modifies this`image, this`decodedFor
      ensures Valid() && image == None && decodedFor == None
    {
      image := None;
      decodedFor := None;
    }
  }

  /** The pixels under the example's pointer positions, and the one off the image. */
  lemma DragPixels()
    ensures ToImageSpace(Point(460.0, 335.0), InitialStage, 0.8, Size(100.0, 100.0)) == Some(Point(10.0, 10.0))
    ensures ToImageSpace(Point(470.0, 335.0), InitialStage, 0.8, Size(100.0, 100.0)) == Some(Point(20.0, 10.0))
    ensures ToImageSpace(Point(0.0, 0.0), InitialStage, 0.8, Size(100.0, 100.0)) == None
    ensures ToImageSpace(Point(470.0, 345.0), InitialStage, 0.8, Size(100.0, 100.0)) == Some(Point(20.0, 20.0))
  {
    assert ImageOffset(InitialStage, 0.8, Size(100.0, 100.0)) == Point(450.0, 325.0);
  }

  /**
    A drag with the mask tool over a 100 x 100 image on the initial 800 x 600 stage at zoom 0.8
    (image corner at stage point (450, 325)): three points on the image and one off it add one
    stroke of the three points.
   */
  method DragGesture(canvas: EditorCanvas)
    requires canvas.Valid() && !canvas.isDrawing && canvas.store.selectedTool == MaskTool
    requires canvas.image == Some(Size(100.0, 100.0)) && canvas.stageSize == InitialStage
    requires canvas.store.canvasZoom == 0.8
    modifies canvas`isDrawing, canvas`currentStroke, canvas.store`brushStrokes
    ensures canvas.Valid() && !canvas.isDrawing
    ensures canvas.store.brushStrokes == old(canvas.store.brushStrokes)
      + [Stroke("stroke-1", [10.0, 10.0, 20.0, 10.0, 20.0, 20.0], canvas.store.brushSize, MaskColor)]
  {
    DragPixels();
    canvas.MouseDown(Point(460.0, 335.0));
    assert canvas.isDrawing && canvas.currentStroke == [10.0, 10.0];
    canvas.MouseMove(Point(470.0, 335.0));
    assert canvas.currentStroke == [10.0, 10.0, 20.0, 10.0];
    canvas.MouseMove(Point(0.0, 0.0));
    canvas.MouseMove(Point(470.0, 345.0));
    assert canvas.currentStroke == [10.0, 10.0, 20.0, 10.0, 20.0, 20.0];
    canvas.MouseUp("stroke-1");
  }

  /**
    From a fresh store with brush size 20 and the mask tool, loading a new 100 x 100 image on a
    wide layout fits it at zoom 0.8, and the drag above then leaves exactly its one stroke.
   */
  method DragExample() returns (strokes: seq<Stroke>)
    ensures strokes == [Stroke("stroke-1", [10.0, 10.0, 20.0, 10.0, 20.0, 20.0], 20, MaskColor)]
  {
    var store := new AppStore(20);
    store.selectedTool := MaskTool;
    store.canvasImage := Some(ExampleImage);
    var canvas := new EditorCanvas(store);
    canvas.ImageDecoded(Size(100.0, 100.0), 1024);
    assert store.canvasZoom == 0.8;
    DragGesture(canvas);
    strokes := store.brushStrokes;
  }

  /** The canvas image of the examples. */
  const ExampleImage := "data:image/png;base64,AAAA"

  /**
    The load effect as written, on a wide layout with a new 100 x 100 image on the initial stage:
    the fit gives 0.8; two presses of zoom-in bring the zoom to 1, and the callback's run after
    that change fits the image again, so the zoom returns to 0.8 instead of staying at 100%.
   */
  method ZoomInSnapsBack() returns (zoom: real)
    ensures zoom == 0.8
  {
    var store := new AppStore(20);
    store.canvasImage := Some(ExampleImage);
    var canvas := new EditorCanvas(store);
    canvas.ImageLoaded(Size(100.0, 100.0), 1024);
    assert store.canvasZoom == 0.8;
    canvas.Zoom(0.1);
    canvas.ImageLoaded(Size(100.0, 100.0), 1024);
    canvas.Zoom(0.1);
    assert store.canvasZoom == 1.0;
    canvas.ImageLoaded(Size(100.0, 100.0), 1024);
    zoom := store.canvasZoom;
  }

  /**
    The same sequence with the intended callback: the runs after the zoom changes are for the
    image already decoded, so the zoom buttons reach 100% and it stays there.
   */
  method ZoomInReachesFull() returns (zoom: real)
    ensures zoom == 1.0
  {
    var store := new AppStore(20);
    store.canvasImage := Some(ExampleImage);
    var canvas := new EditorCanvas(store);
    canvas.ImageDecoded(Size(100.0, 100.0), 1024);
    assert store.canvasZoom == 0.8;
    canvas.Zoom(0.1);
    canvas.ImageDecoded(Size(100.0, 100.0), 1024);
    canvas.Zoom(0.1);
    assert store.canvasZoom == 1.0;
    canvas.ImageDecoded(Size(100.0, 100.0), 1024);
    zoom := store.canvasZoom;
  }

  /**
    The load effect as written after a drag of the stage: once the pan has left the origin,
    the callback's runs after the two zoom-in presses keep the framing, and the zoom reaches 1.
   */
  method PanThenZoomIn() returns (zoom: real, pan: Point)
    ensures zoom == 1.0 && pan == Point(50.0, -25.0)
  {
    var store := new AppStore(20);
    store.canvasImage := Some(ExampleImage);
    var canvas := new EditorCanvas(store);
    canvas.ImageLoaded(Size(100.0, 100.0), 1024);
    assert store.canvasZoom == 0.8;
    canvas.DragEnd(Point(40.0, -20.0));
    assert store.canvasPan == Point(50.0, -25.0);
    canvas.Zoom(0.1);
    canvas.ImageLoaded(Size(100.0, 100.0), 1024);
    canvas.Zoom(0.1);
    assert store.canvasZoom == 1.0;
    canvas.ImageLoaded(Size(100.0, 100.0), 1024);
    zoom, pan := store.canvasZoom, store.canvasPan;
  }
}
