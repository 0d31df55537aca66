/**
  Sequences of page events run against the editor state, and the invariants
  that hold along them: a resize gesture is always also a move gesture (so
  the resize branch of pointer-move never runs), pointer-move never raises
  unless a grab meets a pointer-down on empty canvas or a delete at or below
  the grabbed entry, and a drag moves the grabbed overlay by exactly the
  pointer's displacement (with a re-render between moves).
 */
module Session {
  import opened Wrappers
  import opened Scene
  import opened Editor
  import Credits
  import Viewport
  import Arith

  /** Every event handler of the page that changes the modelled state. */
  datatype Event =
    | Down(p: Point, scale: real, textWidth: real)
    | Move(p: Point, scale: real)
    | Up
    | Upload(file: Option<string>)
    | Update(index: int, patch: OverlayPatch)
    | Delete(index: int)
    | ResizeView(containerWidth: real, containerHeight: real, scale: real)
    | Input(input: FormInput)
    | Generate(generated: Option<string>, generateStored: bool)
    | Export(uploaded: bool, exportStored: bool)
    | SignIn(uid: string, stored: Option<Credits.StoredCredits>, now: int, resetNow: int, written: bool)
    | SignOut

  /** What the browser guarantees of an event: a positive pixel ratio and a non-negative box. */
  predicate WellFormed(e: Event) {
    match e
    case Down(_, scale, _) => scale > 0.0
    case Move(_, scale) => scale > 0.0
    case ResizeView(w, h, scale) => w >= 0.0 && h >= 0.0 && scale > 0.0
    case _ => true
  }

  predicate AllWellFormed(es: seq<Event>) {
    forall k :: 0 <= k < |es| ==> WellFormed(es[k])
  }

  /** The handler raises instead of updating the state. */
  predicate Throws(s: State, e: Event)
    requires WellFormed(e)
  {
    e.Move? && OnMove(s, e.p, e.scale).None?
  }

  /** One event; a handler that raises leaves the state as it was. */
  function Step(s: State, e: Event): State
    requires WellFormed(e)
  {
    match e
    case Down(p, scale, tw) => OnDown(s, p, scale, tw)
    case Move(p, scale) => OnMove(s, p, scale).GetOr(s)
    case Up => OnUp(s)
    case Upload(file) => OnUpload(s, file)
    case Update(i, patch) => OnUpdate(s, i, patch)
    case Delete(i) => OnDelete(s, i)
    case ResizeView(w, h, scale) => OnResizeView(s, w, h, scale)
    case Input(input) => OnInput(s, input)
    case Generate(g, ok) => OnGenerate(s, g, ok)
    case Export(up, ok) => OnExport(s, up, ok)
    case SignIn(uid, stored, now, resetNow, ok) => s.(account := Credits.SignIn(s.account, uid, stored, now, resetNow, ok))
    case SignOut => s.(account := Credits.SignOut())
  }

  function Run(s: State, es: seq<Event>): State
    requires AllWellFormed(es)
    decreases |es|
  {
    if |es| == 0 then s else Run(Step(s, es[0]), es[1..])
  }

  /** No handler along the run raises. */
  predicate NoThrow(s: State, es: seq<Event>)
    requires AllWellFormed(es)
    decreases |es|
  {
    |es| == 0 || (!Throws(s, es[0]) && NoThrow(Step(s, es[0]), es[1..]))
  }

  /**
    The event orders the session invariant covers.  While an overlay is
    grabbed, a pointer-down must hit an overlay or the text, and a delete
    must be of an entry above the grabbed one.  The page does not enforce
    this: `onMouseDown` fires for every mouse button, so a second button
    pressed on empty canvas during a grab clears the selection, and a delete
    button reached from the keyboard can be pressed while a mouse button is
    held.  `SecondDownThenMoveThrows`, `DeleteDuringGrabThenMoveThrows` and
    `DeleteBelowGrabThenMoveThrows` show excluded orders that make the next
    pointer-move raise.
   */
  predicate Deliverable(s: State, e: Event) {
    !s.isMoving ||
    match e
    case Down(p, scale, tw) =>
      AnyHit(s.overlays, ToPhysical(p, scale), scale) || HitsText(s.form, ToPhysical(p, scale), scale, tw)
    case Delete(i) => !(s.selected.Some? && 0 <= i <= s.selected.value)
    case _ => true
  }

  predicate DeliverableRun(s: State, es: seq<Event>)
    requires AllWellFormed(es)
    decreases |es|
  {
    |es| == 0 || (Deliverable(s, es[0]) && DeliverableRun(Step(s, es[0]), es[1..]))
  }

  /** The resize flag is only ever raised together with the move flag. */
  predicate ResizeImpliesMoving(s: State) {
    s.isResizing ==> s.isMoving
  }

  /** The gesture invariant of reachable states. */
  predicate Wf(s: State) {
    && ResizeImpliesMoving(s)
    && (s.isMoving ==> ValidSelection(s))
    && (s.handle.Some? <==> s.isResizing)
  }

  lemma InitWf()
    ensures Wf(Init) && ActiveBranch(Init) == Idle
  {
  }

  lemma StepKeepsResizeImpliesMoving(s: State, e: Event)
    requires WellFormed(e) && ResizeImpliesMoving(s)
    ensures ResizeImpliesMoving(Step(s, e))
  {
  }

  /** From any state with the flag invariant, every run keeps it: resizing never happens without moving. */
  lemma {:induction false} RunKeepsResizeImpliesMoving(s: State, es: seq<Event>)
    requires AllWellFormed(es) && ResizeImpliesMoving(s)
    ensures ResizeImpliesMoving(Run(s, es))
    ensures ActiveBranch(Run(s, es)) != ResizeOverlay
    decreases |es|
  {
    if |es| > 0 {
      StepKeepsResizeImpliesMoving(s, es[0]);
      RunKeepsResizeImpliesMoving(Step(s, es[0]), es[1..]);
    }
  }

  /** Every state reachable from the mounted page takes the move branch, never the resize branch. */
  lemma ResizeBranchShadowed(es: seq<Event>)
    requires AllWellFormed(es)
    ensures ActiveBranch(Run(Init, es)) != ResizeOverlay
  {
    RunKeepsResizeImpliesMoving(Init, es);
  }

  lemma StepKeepsWf(s: State, e: Event)
    requires WellFormed(e) && Wf(s) && Deliverable(s, e)
    ensures !Throws(s, e)
    ensures Wf(Step(s, e))
  {
    match e
    case Down(p, scale, tw) =>
      var q := ToPhysical(p, scale);
      var r := OnDown(s, p, scale, tw);
      if AnyHit(s.overlays, q, scale) {
        assert r.selected.Some? && r.selected.value < |s.overlays|;
      }
    case Move(p, scale) =>
    case Upload(file) =>
    case Delete(i) =>
    case _ =>
  }

  /** Along every deliverable run from a well-formed state, no handler raises and the invariant holds at the end. */
  lemma {:induction false} SessionNeverThrows(s: State, es: seq<Event>)
    requires AllWellFormed(es) && Wf(s) && DeliverableRun(s, es)
    ensures NoThrow(s, es)
    ensures Wf(Run(s, es))
    decreases |es|
  {
    if |es| > 0 {
      StepKeepsWf(s, es[0]);
      SessionNeverThrows(Step(s, es[0]), es[1..]);
    }
  }

  /**
    Pressing inside the 10-unit corner of a fresh 100 x 100 overlay raises
    both flags, yet the next move drags the overlay instead of resizing it.
   */
  lemma CornerDragMovesOverlay(src: string)
    ensures var s := OnUpload(Init, Some(src));
      var d := OnDown(s, Point(95.0, 95.0), 1.0, 0.0);
      && d.isMoving && d.isResizing && d.handle == Some(BottomRight)
      && OnMove(d, Point(150.0, 150.0), 1.0).Some?
      && OnMove(d, Point(150.0, 150.0), 1.0).value.overlays
         == [Overlay(src, 55.0, 55.0, 100.0, 100.0, 0.0, Rectangle)]
  {
    var s := OnUpload(Init, Some(src));
    var q := ToPhysical(Point(95.0, 95.0), 1.0);
    assert HitsOverlay(s.overlays[0], q, 1.0);
    assert FirstHit(s.overlays, q, 1.0, 0) == Some(0);
  }

  /**
    After the canvas has been sized to its container, a text-drag step at the
    same pixel ratio keeps the text origin's x within the canvas's logical
    side, and so within 500 units.
   */
  lemma TextDragStaysOnCanvas(s: State, containerWidth: real, containerHeight: real, scale: real, p: Point)
    requires containerWidth >= 0.0 && containerHeight >= 0.0 && scale > 0.0
    requires ActiveBranch(s) == MoveText
    ensures var t := OnMove(OnResizeView(s, containerWidth, containerHeight, scale), p, scale);
      && t.Some?
      && 0.0 <= t.value.form.textX <= Viewport.Side(containerWidth, containerHeight) <= Viewport.MaxSide
      && t.value.form.textY >= s.form.fontSize
  {
    Viewport.LogicalSideBound(containerWidth, containerHeight, scale);
  }

  /** A run of pointer-moves at a fixed pixel ratio. */
  function Moves(ps: seq<Point>, scale: real): (es: seq<Event>)
    requires scale > 0.0
    ensures |es| == |ps| && AllWellFormed(es)
    ensures forall k :: 0 <= k < |ps| ==> es[k] == Move(ps[k], scale)
  {
    seq(|ps|, k requires 0 <= k < |ps| => Move(ps[k], scale))
  }

  /**
    A sequence of pointer-moves while an overlay is grabbed telescopes: the
    overlay ends displaced by (final pointer - pointer before the first move)
    / scale, everything else in the list is unchanged, and the last pointer
    position is the final one.  Each move sees the overlay list the previous
    one left, i.e. the page re-renders between moves.
   */
  lemma {:induction false} MovesTelescope(s: State, ps: seq<Point>, scale: real)
    requires scale > 0.0 && |ps| >= 1
    requires s.isMoving && ValidSelection(s)
    ensures var t := Run(s, Moves(ps, scale));
      var i := s.selected.value;
      var qn := ToPhysical(ps[|ps| - 1], scale);
      && |t.overlays| == |s.overlays|
      && t.selected == s.selected && t.isMoving
      && t.last == qn
      && t.overlays[i] == s.overlays[i].(x := s.overlays[i].x + (qn.x - s.last.x) / scale,
                                         y := s.overlays[i].y + (qn.y - s.last.y) / scale)
      && forall k :: 0 <= k < |s.overlays| && k != i ==> t.overlays[k] == s.overlays[k]
    decreases |ps|
  {
    var es := Moves(ps, scale);
    var s1 := Step(s, es[0]);
    var i := s.selected.value;
    var q0 := ToPhysical(ps[0], scale);
    assert s1 == OnMove(s, ps[0], scale).value;
    if |ps| > 1 {
      assert es[1..] == Moves(ps[1..], scale);
      MovesTelescope(s1, ps[1..], scale);
      var qn := ToPhysical(ps[|ps| - 1], scale);
      Arith.AddQuotients(q0.x - s.last.x, qn.x - q0.x, scale);
      Arith.AddQuotients(q0.y - s.last.y, qn.y - q0.y, scale);
    }
  }

  /**
    Grabbing an overlay and dragging it: the lowest overlay under the press
    ends displaced by exactly the pointer's logical displacement.
   */
  lemma DragFollowsPointer(s: State, p0: Point, ps: seq<Point>, scale: real, textWidth: real)
    requires scale > 0.0 && |ps| >= 1
    requires AnyHit(s.overlays, ToPhysical(p0, scale), scale)
    ensures var d := OnDown(s, p0, scale, textWidth);
      var t := Run(d, Moves(ps, scale));
      var i := d.selected.value;
      var pn := ps[|ps| - 1];
      && LowestHit(s.overlays, ToPhysical(p0, scale), scale, i)
      && i < |t.overlays|
      && t.overlays[i] == s.overlays[i].(x := s.overlays[i].x + (pn.x - p0.x),
                                         y := s.overlays[i].y + (pn.y - p0.y))
  {
    var d := OnDown(s, p0, scale, textWidth);
    var q0 := ToPhysical(p0, scale);
    assert d.last == q0 && d.overlays == s.overlays;
    MovesTelescope(d, ps, scale);
    var pn := ps[|ps| - 1];
    var qn := ToPhysical(pn, scale);
    var i := d.selected.value;
    var t := Run(d, Moves(ps, scale));
    DisplacementInLogicalUnits(pn, p0, scale);
    assert t.overlays[i] == d.overlays[i].(x := d.overlays[i].x + (qn.x - d.last.x) / scale,
                                           y := d.overlays[i].y + (qn.y - d.last.y) / scale);
  }

  /** A physical displacement divided by the pixel ratio is the logical one. */
  lemma DisplacementInLogicalUnits(a: Point, b: Point, s: real)
    requires s > 0.0
    ensures (ToPhysical(a, s).x - ToPhysical(b, s).x) / s == a.x - b.x
    ensures (ToPhysical(a, s).y - ToPhysical(b, s).y) / s == a.y - b.y
  {
    assert a.x * s - b.x * s == (a.x - b.x) * s;
    assert a.y * s - b.y * s == (a.y - b.y) * s;
  }

  /** The mounted page after its first resize into a 500 x 500 container at pixel ratio 1. */
  function Mounted(): (s: State)
    ensures s == Init.(canvas := Viewport.Canvas(500, 500))
    ensures Wf(s) && ActiveBranch(s) == Idle
  {
    var s := OnResizeView(Init, 500.0, 500.0, 1.0);
    assert s.canvas.width as real <= 500.0 < s.canvas.width as real + 1.0;
    s
  }

  /**
    On the mounted 500 x 500 canvas, with a fresh overlay grabbed at
    (50, 50), a second button pressed on empty canvas clears the selection
    but not the move flag, and the next pointer-move raises.
   */
  lemma SecondDownThenMoveThrows(src: string, p: Point)
    ensures var s := OnUpload(Mounted(), Some(src));
      var d := OnDown(s, Point(50.0, 50.0), 1.0, 0.0);
      var d2 := OnDown(d, Point(300.0, 300.0), 1.0, 0.0);
      && d.isMoving && d.selected == Some(0)
      && !Deliverable(d, Down(Point(300.0, 300.0), 1.0, 0.0))
      && d2.isMoving && d2.selected.None?
      && Throws(d2, Move(p, 1.0))
  {
    var s := OnUpload(Mounted(), Some(src));
    var q := ToPhysical(Point(50.0, 50.0), 1.0);
    assert HitsOverlay(s.overlays[0], q, 1.0);
    assert FirstHit(s.overlays, q, 1.0, 0) == Some(0);
    var d := OnDown(s, Point(50.0, 50.0), 1.0, 0.0);
    var q2 := ToPhysical(Point(300.0, 300.0), 1.0);
    assert !HitsOverlay(d.overlays[0], q2, 1.0);
    assert FirstHit(d.overlays, q2, 1.0, 0).None?;
  }

  /**
    On the mounted canvas, with a fresh overlay grabbed, deleting it before
    the release leaves the move flag up with no selection, and the next
    pointer-move raises.
   */
  lemma DeleteDuringGrabThenMoveThrows(src: string, p: Point)
    ensures var s := OnUpload(Mounted(), Some(src));
      var d := OnDown(s, Point(50.0, 50.0), 1.0, 0.0);
      var e := OnDelete(d, 0);
      && !Deliverable(d, Delete(0))
      && e.isMoving && e.overlays == [] && e.selected.None?
      && Throws(e, Move(p, 1.0))
  {
    var s := OnUpload(Mounted(), Some(src));
    var q := ToPhysical(Point(50.0, 50.0), 1.0);
    assert HitsOverlay(s.overlays[0], q, 1.0);
    assert FirstHit(s.overlays, q, 1.0, 0) == Some(0);
  }

  /**
    On the mounted canvas, with two overlays and the second one moved to
    (200, 200) and grabbed, deleting the first keeps the selection at 1,
    one past the end of the shortened list, and the next pointer-move raises.
   */
  lemma DeleteBelowGrabThenMoveThrows(a: string, b: string, p: Point)
    ensures var s := OnUpdate(OnUpload(OnUpload(Mounted(), Some(a)), Some(b)), 1, PositionPatch(200.0, 200.0));
      var d := OnDown(s, Point(250.0, 250.0), 1.0, 0.0);
      var e := OnDelete(d, 0);
      && d.isMoving && d.selected == Some(1)
      && !Deliverable(d, Delete(0))
      && e.isMoving && |e.overlays| == 1 && e.selected == Some(1)
      && Throws(e, Move(p, 1.0))
  {
    var s := OnUpdate(OnUpload(OnUpload(Mounted(), Some(a)), Some(b)), 1, PositionPatch(200.0, 200.0));
    var q := ToPhysical(Point(250.0, 250.0), 1.0);
    assert s.overlays[0] == NewOverlay(a);
    assert s.overlays[1] == Overlay(b, 200.0, 200.0, 100.0, 100.0, 0.0, Rectangle);
    assert !HitsOverlay(s.overlays[0], q, 1.0);
    assert HitsOverlay(s.overlays[1], q, 1.0);
    assert FirstHit(s.overlays, q, 1.0, 0) == Some(1);
  }
}
