/**
  The editor state of `ImageGenerator` (src/app/home/page.js) lifted out of
  its React hooks into one immutable record, and one pure transition per
  event handler.  Every handler is a function of the state before the event,
  as the page's state updaters are.

  Coordinates: a pointer event is given as its logical offset from the
  canvas's top-left corner (`clientX - rect.left`, `clientY - rect.top`);
  the handlers multiply it by the device pixel ratio `scale` and work in
  physical pixels, while overlay and text positions are logical.
 */
module Editor {
  import opened Wrappers
  import opened Scene
  import opened TextLayout
  import Viewport
  import Credits
  import Arith
  import Lines

  datatype Point = Point(x: real, y: real)

  /** `resizeHandle`; the only handle the page sets. */
  datatype Handle = BottomRight

  datatype State = State(
    overlays: seq<Overlay>,
    selected: Option<nat>,
    isMoving: bool,
    isResizing: bool,
    isMovingText: bool,
    handle: Option<Handle>,
    last: Point,            // lastMousePosRef, physical pixels
    form: TextConfig,
    canvas: Viewport.Canvas,
    aiPrompt: string,
    account: Credits.Account)

  /** The page as it mounts, before the first canvas resize. */
  const Init: State := State([], None, false, false, false, None, Point(0.0, 0.0),
                             TextLayout.Initial, Viewport.Initial, "", Credits.Initial)

  /** Distance from the bottom-right corner, in logical units, that grabs the resize handle. */
  const EdgeThreshold: real := 10.0

  /** Smallest width and height a resize step produces. */
  const MinSide: real := 20.0

  function ToPhysical(p: Point, scale: real): Point {
    Point(p.x * scale, p.y * scale)
  }

  /** `Math.max(lo, Math.min(hi, v))`: `v` pulled into `[lo, hi]`, and `lo` when the range is empty. */
  function Clamp(lo: real, hi: real, v: real): (r: real)
    ensures r >= lo
    ensures lo <= hi ==> r <= hi
    ensures lo <= v <= hi ==> r == v
    ensures hi < lo ==> r == lo
    ensures v < lo ==> r == lo
    ensures lo <= hi && hi < v ==> r == hi
  {
    Arith.Max(lo, Arith.Min(hi, v))
  }

  /** Nothing outside the interaction state differs between `s` and `r`. */
  predicate SameDocument(s: State, r: State) {
    r.overlays == s.overlays && r.form == s.form && r.canvas == s.canvas &&
    r.aiPrompt == s.aiPrompt && r.account == s.account
  }

  /** The gesture part of the state is the same in `s` and `r`. */
  predicate SameGesture(s: State, r: State) {
    r.selected == s.selected && r.isMoving == s.isMoving && r.isResizing == s.isResizing &&
    r.isMovingText == s.isMovingText && r.handle == s.handle
  }

  // ---------------------------------------------------------------------
  // Pointer-down: hit testing

  /** The closed rectangle of `o`, in physical pixels, contains the physical point `q`. */
  predicate HitsOverlay(o: Overlay, q: Point, scale: real) {
    q.x >= o.x * scale && q.x <= (o.x + o.width) * scale &&
    q.y >= o.y * scale && q.y <= (o.y + o.height) * scale
  }

  /** `i` is the lowest index whose overlay contains `q`. */
  predicate LowestHit(list: seq<Overlay>, q: Point, scale: real, i: int) {
    0 <= i < |list| && HitsOverlay(list[i], q, scale) &&
    forall j :: 0 <= j < i ==> !HitsOverlay(list[j], q, scale)
  }

  predicate AnyHit(list: seq<Overlay>, q: Point, scale: real) {
    exists i :: 0 <= i < |list| && HitsOverlay(list[i], q, scale)
  }

  /** `overlayImages.findIndex(...)` scanning from `from`; None plays the part of -1. */
  function FirstHit(list: seq<Overlay>, q: Point, scale: real, from: nat): (r: Option<nat>)
    requires from <= |list|
    ensures r.Some? ==> from <= r.value < |list| && HitsOverlay(list[r.value], q, scale)
    ensures r.Some? ==> forall j :: from <= j < r.value ==> !HitsOverlay(list[j], q, scale)
    ensures r.None? ==> forall j :: from <= j < |list| ==> !HitsOverlay(list[j], q, scale)
    decreases |list| - from
  {
    if from == |list| then None
    else if HitsOverlay(list[from], q, scale) then Some(from)
    else FirstHit(list, q, scale, from + 1)
  }

  /** The pointer is within the edge threshold of the right edge and of the bottom edge. */
  predicate NearCorner(o: Overlay, q: Point, scale: real) {
    q.x >= (o.x + o.width) * scale - EdgeThreshold * scale &&
    q.y >= (o.y + o.height) * scale - EdgeThreshold * scale
  }

  /**
    The text hit box: `textWidth` is `ctx.measureText(text).width` of the
    whole, unsplit text; the box sits on the baseline `textY` whatever the
    alignment.
   */
  function HitsText(f: TextConfig, q: Point, scale: real, textWidth: real): (hit: bool)
    ensures hit ==> f.textX * scale <= q.x <= f.textX * scale + textWidth
    ensures hit ==> (f.textY - f.fontSize) * scale <= q.y <= f.textY * scale
  {
    var tx := f.textX * scale;
    var ty := f.textY * scale;
    q.x >= tx && q.x <= tx + textWidth && q.y >= ty - f.fontSize * scale && q.y <= ty
  }

  /** `handleCanvasMouseDown`. */
  function OnDown(s: State, p: Point, scale: real, textWidth: real): (r: State)
    ensures SameDocument(s, r)
    ensures var q := ToPhysical(p, scale);
      AnyHit(s.overlays, q, scale) ==>
        && r.selected.Some? && LowestHit(s.overlays, q, scale, r.selected.value)
        && r.isMoving && r.last == q && r.isMovingText == s.isMovingText
        && (r.isResizing <==> s.isResizing || NearCorner(s.overlays[r.selected.value], q, scale))
        && r.handle == (if NearCorner(s.overlays[r.selected.value], q, scale) then Some(BottomRight) else s.handle)
    ensures var q := ToPhysical(p, scale);
      !AnyHit(s.overlays, q, scale) && HitsText(s.form, q, scale, textWidth) ==>
        r == s.(isMovingText := true, last := q)
    ensures var q := ToPhysical(p, scale);
      !AnyHit(s.overlays, q, scale) && !HitsText(s.form, q, scale, textWidth) ==>
        r == s.(selected := None)
  {
    var q := ToPhysical(p, scale);
    match FirstHit(s.overlays, q, scale, 0)
    case Some(i) =>
      var grabbed := s.(selected := Some(i), isMoving := true, last := q);
      if NearCorner(s.overlays[i], q, scale) then grabbed.(isResizing := true, handle := Some(BottomRight))
      else grabbed
    case None =>
      if HitsText(s.form, q, scale, textWidth) then s.(isMovingText := true, last := q)
      else s.(selected := None)
  }

  /**
    For a positive pixel ratio the physical hit test is the logical one: the
    pointer lies in `[x, x + width] x [y, y + height]`.
   */
  lemma HitsOverlayLogical(o: Overlay, p: Point, scale: real)
    requires scale > 0.0
    ensures HitsOverlay(o, ToPhysical(p, scale), scale) <==>
      o.x <= p.x <= o.x + o.width && o.y <= p.y <= o.y + o.height
  {
    Arith.ScaleOrder(o.x, p.x, scale);
    Arith.ScaleOrder(p.x, o.x + o.width, scale);
    Arith.ScaleOrder(o.y, p.y, scale);
    Arith.ScaleOrder(p.y, o.y + o.height, scale);
  }

  /**
    For a positive pixel ratio the corner test is the logical one: within 10
    units of the right edge and of the bottom edge.
   */
  lemma NearCornerLogical(o: Overlay, p: Point, scale: real)
    requires scale > 0.0
    ensures NearCorner(o, ToPhysical(p, scale), scale) <==>
      p.x >= o.x + o.width - EdgeThreshold && p.y >= o.y + o.height - EdgeThreshold
  {
    assert (o.x + o.width) * scale - EdgeThreshold * scale == (o.x + o.width - EdgeThreshold) * scale;
    assert (o.y + o.height) * scale - EdgeThreshold * scale == (o.y + o.height - EdgeThreshold) * scale;
    Arith.ScaleOrder(o.x + o.width - EdgeThreshold, p.x, scale);
    Arith.ScaleOrder(o.y + o.height - EdgeThreshold, p.y, scale);
  }

  /**
    For a positive pixel ratio the text hit box is, in logical units,
    `[textX, textX + textWidth / scale] x [textY - fontSize, textY]`, and it
    is the same box for every alignment.
   */
  lemma HitsTextLogical(f: TextConfig, p: Point, scale: real, textWidth: real, a: Align)
    requires scale > 0.0
    ensures HitsText(f, ToPhysical(p, scale), scale, textWidth) <==>
      f.textX <= p.x <= f.textX + textWidth / scale && f.textY - f.fontSize <= p.y <= f.textY
    ensures HitsText(f.(align := a), ToPhysical(p, scale), scale, textWidth) ==
      HitsText(f, ToPhysical(p, scale), scale, textWidth)
  {
    var right := f.textX + textWidth / scale;
    var top := f.textY - f.fontSize;
    assert right * scale == f.textX * scale + textWidth by {
      Arith.CancelScale(textWidth, scale);
      assert right * scale == f.textX * scale + textWidth / scale * scale;
    }
    assert top * scale == f.textY * scale - f.fontSize * scale;
    Arith.ScaleOrder(f.textX, p.x, scale);
    Arith.ScaleOrder(p.x, right, scale);
    Arith.ScaleOrder(top, p.y, scale);
    Arith.ScaleOrder(p.y, f.textY, scale);
  }

  // ---------------------------------------------------------------------
  // Pointer-move

  /** Which branch of `handleCanvasMouseMove` runs; moving is checked before resizing. */
  datatype Branch = Idle | MoveOverlay | ResizeOverlay | MoveText

  function ActiveBranch(s: State): (b: Branch)
    ensures b == Idle <==> !s.isMoving && !s.isResizing && !s.isMovingText
    ensures b == MoveOverlay <==> s.isMoving
    ensures b == ResizeOverlay <==> s.isResizing && !s.isMoving
    ensures b == MoveText <==> s.isMovingText && !s.isMoving && !s.isResizing
  {
    if !s.isMoving && !s.isResizing && !s.isMovingText then Idle
    else if s.isMoving then MoveOverlay
    else if s.isResizing then ResizeOverlay
    else MoveText
  }

  /** `overlayImages[selectedImage]` is an entry, not `undefined`. */
  predicate ValidSelection(s: State) {
    s.selected.Some? && s.selected.value < |s.overlays|
  }

  /**
    `handleCanvasMouseMove`.  None stands for the TypeError the handler
    raises when it reads a field of `overlayImages[selectedImage]` while no
    such entry exists; it raises it before any state update.
   */
  function OnMove(s: State, p: Point, scale: real): (r: Option<State>)
    requires scale > 0.0
    ensures ActiveBranch(s) == Idle ==> r == Some(s)
    ensures r.Some? ==> SameGesture(s, r.value) && r.value.canvas == s.canvas &&
                        r.value.aiPrompt == s.aiPrompt && r.value.account == s.account &&
                        |r.value.overlays| == |s.overlays|
    ensures ActiveBranch(s) == MoveOverlay ==> (r.Some? <==> ValidSelection(s))
    ensures ActiveBranch(s) == MoveOverlay && ValidSelection(s) ==>
      r == Some(DragSelected(s, ToPhysical(p, scale), scale))
    ensures ActiveBranch(s) == MoveOverlay && r.Some? ==>
      var i := s.selected.value;
      var q := ToPhysical(p, scale);
      && r.value.last == q
      && r.value.form == s.form
      && r.value.overlays[i] == s.overlays[i].(x := s.overlays[i].x + (q.x - s.last.x) / scale,
                                               y := s.overlays[i].y + (q.y - s.last.y) / scale)
      && forall k :: 0 <= k < |s.overlays| && k != i ==> r.value.overlays[k] == s.overlays[k]
    ensures ActiveBranch(s) == ResizeOverlay ==>
      (r.Some? <==> s.handle != Some(BottomRight) || ValidSelection(s))
    ensures ActiveBranch(s) == ResizeOverlay && s.handle != Some(BottomRight) ==> r == Some(s)
    ensures ActiveBranch(s) == ResizeOverlay && s.handle == Some(BottomRight) && ValidSelection(s) ==>
      r == Some(ResizeSelected(s, p, scale))
    ensures ActiveBranch(s) == ResizeOverlay && s.handle == Some(BottomRight) && ValidSelection(s) ==>
      var i := s.selected.value;
      && r.value.overlays[i].width >= MinSide && r.value.overlays[i].height >= MinSide
      && r.value.overlays[i].width == Arith.Max(MinSide, p.x - s.overlays[i].x)
      && r.value.overlays[i].height == Arith.Max(MinSide, p.y - s.overlays[i].y)
      && r.value.overlays[i] == s.overlays[i].(width := r.value.overlays[i].width,
                                               height := r.value.overlays[i].height)
    ensures ActiveBranch(s) == MoveText ==> r == Some(DragText(s, ToPhysical(p, scale), scale))
    ensures ActiveBranch(s) == MoveText ==>
      var f := s.form;
      var q := ToPhysical(p, scale);
      var w := s.canvas.width as real / scale;
      var h := s.canvas.height as real / scale;
      var tx := f.textX + (q.x - s.last.x) / scale;
      var ty := f.textY + (q.y - s.last.y) / scale;
      && r.Some? && r.value.overlays == s.overlays && r.value.last == q
      && r.value.form == f.(textX := r.value.form.textX, textY := r.value.form.textY)
      && 0.0 <= r.value.form.textX <= w
      && (0.0 <= tx <= w ==> r.value.form.textX == tx)
      && (tx < 0.0 ==> r.value.form.textX == 0.0)
      && (w < tx ==> r.value.form.textX == w)
      && r.value.form.textY >= f.fontSize
      && (f.fontSize <= h ==> r.value.form.textY <= h)
      && (f.fontSize <= ty <= h ==> r.value.form.textY == ty)
      && (ty < f.fontSize ==> r.value.form.textY == f.fontSize)
      && (f.fontSize <= h < ty ==> r.value.form.textY == h)
      && (h < f.fontSize ==> r.value.form.textY == f.fontSize)
  {
    var q := ToPhysical(p, scale);
    match ActiveBranch(s)
    case Idle => Some(s)
    case MoveOverlay =>
      if !ValidSelection(s) then None else Some(DragSelected(s, q, scale))
    case ResizeOverlay =>
      if s.handle != Some(BottomRight) then Some(s)
      else if !ValidSelection(s) then None
      else Some(ResizeSelected(s, p, scale))
    case MoveText => Some(DragText(s, q, scale))
  }

  /** The move branch: the selected overlay follows the pointer, in logical units. */
  function DragSelected(s: State, q: Point, scale: real): (r: State)
    requires scale > 0.0 && ValidSelection(s)
    ensures r == s.(overlays := r.overlays, last := q)
    ensures |r.overlays| == |s.overlays|
    ensures var i := s.selected.value;
      && r.overlays[i] == s.overlays[i].(x := s.overlays[i].x + (q.x - s.last.x) / scale,
                                         y := s.overlays[i].y + (q.y - s.last.y) / scale)
      && forall k :: 0 <= k < |s.overlays| && k != i ==> r.overlays[k] == s.overlays[k]
  {
    var i := s.selected.value;
    var o := s.overlays[i];
    var dx := (q.x - s.last.x) / scale;
    var dy := (q.y - s.last.y) / scale;
    s.(overlays := UpdateAt(s.overlays, i, PositionPatch(o.x + dx, o.y + dy)), last := q)
  }

  /** The resize branch: the bottom-right corner goes to the pointer, never below the minimum side. */
  function ResizeSelected(s: State, p: Point, scale: real): (r: State)
    requires scale > 0.0 && ValidSelection(s)
    ensures r == s.(overlays := r.overlays)
    ensures |r.overlays| == |s.overlays|
    ensures var i := s.selected.value;
      && r.overlays[i].width >= MinSide && r.overlays[i].height >= MinSide
      && r.overlays[i].width == Arith.Max(MinSide, p.x - s.overlays[i].x)
      && r.overlays[i].height == Arith.Max(MinSide, p.y - s.overlays[i].y)
      && r.overlays[i] == s.overlays[i].(width := r.overlays[i].width, height := r.overlays[i].height)
      && forall k :: 0 <= k < |s.overlays| && k != i ==> r.overlays[k] == s.overlays[k]
  {
    var q := ToPhysical(p, scale);
    var i := s.selected.value;
    var o := s.overlays[i];
    Arith.CancelScale(p.x, scale);
    Arith.CancelScale(p.y, scale);
    var w := Arith.Max(MinSide, q.x / scale - o.x);
    var h := Arith.Max(MinSide, q.y / scale - o.y);
    assert q.x / scale == p.x && q.y / scale == p.y;
    s.(overlays := UpdateAt(s.overlays, i, SizePatch(w, h)))
  }

  /** The text branch: the text origin follows the pointer, clamped to the canvas. */
  function DragText(s: State, q: Point, scale: real): (r: State)
    requires scale > 0.0
    ensures r == s.(form := r.form, last := q)
    ensures var f := s.form;
      var w := s.canvas.width as real / scale;
      var h := s.canvas.height as real / scale;
      var tx := f.textX + (q.x - s.last.x) / scale;
      var ty := f.textY + (q.y - s.last.y) / scale;
      && r.form == f.(textX := r.form.textX, textY := r.form.textY)
      && 0.0 <= r.form.textX <= w
      && (0.0 <= tx <= w ==> r.form.textX == tx)
      && (tx < 0.0 ==> r.form.textX == 0.0)
      && (w < tx ==> r.form.textX == w)
      && r.form.textY >= f.fontSize
      && (f.fontSize <= h ==> r.form.textY <= h)
      && (f.fontSize <= ty <= h ==> r.form.textY == ty)
      && (ty < f.fontSize ==> r.form.textY == f.fontSize)
      && (f.fontSize <= h < ty ==> r.form.textY == h)
      && (h < f.fontSize ==> r.form.textY == f.fontSize)
  {
    var f := s.form;
    var dx := (q.x - s.last.x) / scale;
    var dy := (q.y - s.last.y) / scale;
    var w := s.canvas.width as real / scale;
    var h := s.canvas.height as real / scale;
    assert w >= 0.0;
    s.(form := f.(textX := Clamp(0.0, w, f.textX + dx), textY := Clamp(f.fontSize, h, f.textY + dy)),
       last := q)
  }

  // ---------------------------------------------------------------------
  // Pointer-up (also bound to mouse-leave)

  /** `handleCanvasMouseUp`: every gesture flag and the handle are cleared. */
  function OnUp(s: State): (r: State)
    ensures ActiveBranch(r) == Idle && r.handle.None?
    ensures SameDocument(s, r) && r.selected == s.selected && r.last == s.last
  {
    s.(isMoving := false, isResizing := false, isMovingText := false, handle := None)
  }

  /** After a release, pointer-moves change nothing, and a second release neither. */
  lemma IdleAfterUp(s: State, p: Point, scale: real)
    requires scale > 0.0
    ensures OnMove(OnUp(s), p, scale) == Some(OnUp(s))
    ensures OnUp(OnUp(s)) == OnUp(s)
  {
  }

  // ---------------------------------------------------------------------
  // Overlay list and form controls

  /** `handleImageUpload`: without a chosen file nothing happens. */
  function OnUpload(s: State, file: Option<string>): (r: State)
    ensures file.None? ==> r == s
    ensures r == s.(overlays := r.overlays)
    ensures file.Some? ==> |r.overlays| == |s.overlays| + 1 && r.overlays[..|s.overlays|] == s.overlays
    ensures file.Some? ==> r.overlays[|s.overlays|] == NewOverlay(file.value)
  {
    match file
    case None => s
    case Some(src) => s.(overlays := Append(s.overlays, src))
  }

  /** `updateOverlayImage(index, updates)`; the selection is not touched. */
  function OnUpdate(s: State, index: int, p: OverlayPatch): (r: State)
    ensures r == s.(overlays := r.overlays)
    ensures |r.overlays| == |s.overlays|
    ensures forall k :: 0 <= k < |s.overlays| && k != index ==> r.overlays[k] == s.overlays[k]
    ensures 0 <= index < |s.overlays| ==> r.overlays[index] == Merge(s.overlays[index], p)
  {
    s.(overlays := UpdateAt(s.overlays, index, p))
  }

  /**
    `deleteOverlayImage(index)`: the entry goes, and the selection is cleared
    exactly when it pointed at that entry.  A selection above `index` is not
    shifted down, so it then names the overlay that followed it.
   */
  function OnDelete(s: State, index: int): (r: State)
    ensures r.overlays == DeleteAt(s.overlays, index)
    ensures r.selected.None? <==> (s.selected.None? || s.selected.value == index)
    ensures r.selected.Some? ==> r.selected == s.selected
    ensures r == s.(overlays := r.overlays, selected := r.selected)
  {
    var sel := if s.selected.Some? && s.selected.value == index then None else s.selected;
    s.(overlays := DeleteAt(s.overlays, index), selected := sel)
  }

  /** The controls that write one field through `handleInputChange`, and the prompt box. */
  datatype FormInput = Text(text: string) | FontSize(size: real) | Prompt(prompt: string)

  function OnInput(s: State, input: FormInput): (r: State)
    ensures r.overlays == s.overlays && r.account == s.account && SameGesture(s, r)
    ensures r.canvas == s.canvas && r.last == s.last
    ensures input.Text? ==> r.form == s.form.(text := input.text) && r.aiPrompt == s.aiPrompt
    ensures input.FontSize? ==> r.form == s.form.(fontSize := input.size) && r.aiPrompt == s.aiPrompt
    ensures input.Prompt? ==> r.aiPrompt == input.prompt && r.form == s.form
  {
    match input
    case Text(t) => s.(form := s.form.(text := t))
    case FontSize(n) => s.(form := s.form.(fontSize := n))
    case Prompt(t) => s.(aiPrompt := t)
  }

  /** Whatever is typed into the text box is what the next paint draws, one line per hard break. */
  lemma TypedTextIsDrawn(s: State, t: string, scale: real)
    ensures var d := Layout(OnInput(s, Text(t)).form, s.canvas.width, scale);
      Texts(d.lines) == Lines.Split(t) && Lines.Join(Texts(d.lines)) == t
  {
    LayoutKeepsText(OnInput(s, Text(t)).form, s.canvas.width, scale);
  }

  /** `resizeCanvas` with the container's bounding box. */
  function OnResizeView(s: State, containerWidth: real, containerHeight: real, scale: real): (r: State)
    requires containerWidth >= 0.0 && containerHeight >= 0.0 && scale > 0.0
    ensures r == s.(canvas := r.canvas)
    ensures r.canvas.width == r.canvas.height
    ensures r.canvas == Viewport.Resize(containerWidth, containerHeight, scale)
    ensures r.canvas.width as real / scale <= Viewport.Side(containerWidth, containerHeight)
  {
    Viewport.LogicalSideBound(containerWidth, containerHeight, scale);
    s.(canvas := Viewport.Resize(containerWidth, containerHeight, scale))
  }

  // ---------------------------------------------------------------------
  // Credits

  /**
    `handleAITextGeneration`.  `generated` is the service's answer (None when
    it failed) and `stored` whether the credit update reached the database.
   */
  function OnGenerate(s: State, generated: Option<string>, stored: bool): (r: State)
    ensures !Credits.MayGenerate(s.account, s.aiPrompt) || generated.None? ==> r == s
    ensures r == s.(form := r.form, account := r.account) && r.form == s.form.(text := r.form.text)
    ensures r.account.user == s.account.user && r.account.nextReset == s.account.nextReset
    ensures r.account.download == s.account.download
    ensures r.account.ai == (if Credits.MayGenerate(s.account, s.aiPrompt) && generated.Some? &&
                                s.account.user.Some? && stored
                             then s.account.ai - 1 else s.account.ai)
    ensures Credits.MayGenerate(s.account, s.aiPrompt) && generated.Some? ==> r.form.text == generated.value
  {
    if !Credits.MayGenerate(s.account, s.aiPrompt) then s
    else match generated
      case None => s
      case Some(t) => s.(form := s.form.(text := t), account := Credits.AfterGenerate(s.account, stored))
  }

  /**
    `uploadAndDownloadImage`.  `uploaded` says whether the upload and the
    download link succeeded, `stored` whether the credit update did.
   */
  function OnExport(s: State, uploaded: bool, stored: bool): (r: State)
    ensures !Credits.MayExport(s.account) || !uploaded ==> r == s
    ensures r == s.(account := r.account)
    ensures r.account.user == s.account.user && r.account.nextReset == s.account.nextReset
    ensures r.account.ai == s.account.ai
    ensures r.account.download == (if Credits.MayExport(s.account) && uploaded && stored
                                   then s.account.download - 1 else s.account.download)
  {
    if !Credits.MayExport(s.account) || !uploaded then s
    else s.(account := Credits.AfterExport(s.account, stored))
  }

  /** Credits never go below zero through generation or export. */
  lemma CreditsStayNonNegative(s: State, generated: Option<string>, uploaded: bool, stored: bool)
    requires s.account.ai >= 0 && s.account.download >= 0
    ensures OnGenerate(s, generated, stored).account.ai >= 0
    ensures OnExport(s, uploaded, stored).account.download >= 0
  {
  }

  /** Signed out, a generation replaces the text and costs nothing. */
  lemma SignedOutGenerationIsFree(s: State, t: string, stored: bool)
    requires s.account.user.None? && Credits.MayGenerate(s.account, s.aiPrompt)
    ensures OnGenerate(s, Some(t), stored).form.text == t
    ensures OnGenerate(s, Some(t), stored).account == s.account
  {
  }
}
