# PostPen editor model

PostPen's editor page (`ImageGenerator`, src/app/home/page.js) lets a user
compose a square picture from a background, a list of image overlays and
one gradient-filled text block, then export it. The page keeps its state in
React hooks and changes it in event handlers. This project lifts that state
into one immutable record, `Editor.State`. Every handler becomes a pure
function of the state before the event. The project proves what the
handlers do:

- **Overlay list** (`Scene`): append on upload, field-merge update by index,
  delete by index, and what delete does to the selection.
- **Mouse gesture state machine** (`Editor`, `Session`):
  - pointer-down hit-tests the overlays, then the corner handle, then the
    text box;
  - pointer-move drags an overlay, resizes one, or drags the text, with
    clamping;
  - pointer-up (also bound to mouse-leave) ends the gesture.
- **Text placement** (`Lines`, `TextLayout`): the text is split on `'\n'`;
  each piece gets a baseline and an x anchor; one gradient spans the whole
  block.
- **Canvas size** (`Viewport`): a square whose side is
  `min(container width, container height, 500)` logical units. Its backing
  store is that side times the device pixel ratio, truncated to an integer.
- **Credits** (`Credits`, and `Editor.OnGenerate` / `Editor.OnExport`):
  - the guards that refuse an AI generation or an export;
  - the decrement after a successful one;
  - the `|| 5` read-back default;
  - the 24-hour reset.

Coordinates are Dafny `real`s. Overlay and text positions are logical (CSS)
units. A pointer event carries its logical offset from the canvas corner.
The handlers multiply that offset by the device pixel ratio `scale` (always
`> 0`) and work in physical pixels, as the page does. `ctx.measureText(text).width`
is a parameter of pointer-down (`textWidth`).

Behaviour of the code that the model keeps as written:

- Text is split only on hard line breaks. There is no word-wrap, no padding,
  no long-press and no touch path.
- Hit-testing takes the **first** (bottom-most) overlay that contains the
  point, not the top-most.
- The text hit box is the unsplit text's width on the baseline `textY`,
  starting at `textX` whatever the alignment. When drawn, centred text
  ignores `textX` and right-aligned text mirrors it from the right edge.
- Pointer-down sets `isMoving` whenever it sets `isResizing`, and
  pointer-move checks `isMoving` first. The resize branch therefore never
  runs: a corner drag moves the overlay. `Session.ResizeBranchShadowed` and
  `Session.CornerDragMovesOverlay` state this.
- Deleting an overlay clears the selection only when it pointed at the
  deleted entry. A selection above it is not shifted down.
- A signed-out user can generate text: the credit update returns early
  without a user, so the generation costs nothing.
- Pointer-move raises a TypeError when it reads `overlayImages[selectedImage]`
  and no such entry exists. `Editor.OnMove` returns `None` in that case. The
  throw happens before any state update, so `Session.Step` keeps the state.
  Orders that reach it, all with a grab still held:
  - a second mouse button pressed on empty canvas (`onMouseDown` fires for
    every button, clears the selection and leaves `isMoving` set);
  - a delete of the grabbed overlay;
  - a delete of an earlier overlay while the last one is grabbed, which
    leaves the selection one past the end.

  `Session.SecondDownThenMoveThrows`, `Session.DeleteDuringGrabThenMoveThrows`
  and `Session.DeleteBelowGrabThenMoveThrows` exhibit them. A delete of an
  earlier overlay while a middle one is grabbed does not raise; the drag
  then moves the overlay that followed the grabbed one.
- A sign-in whose database write fails skips the rest of the chain. A new
  user keeps the counters the page showed before; a due reset leaves the
  stale counts and a next reset time already in the past on screen.

## Model

| member | source | states |
|---|---|---|
| `Lines.Split` | src/app/home/page.js:274 | `text.split('\n')` yields exactly one piece more than there are line breaks, and no piece contains a line break |
| `Lines.JoinSplit` | src/app/home/page.js:274 | joining the split pieces with `'\n'` gives back the original text |
| `Lines.SplitJoin` | src/app/home/page.js:274 | splitting the join of break-free pieces gives back the same pieces, so split and join are inverse |
| `Lines.SplitSingle` | src/app/home/page.js:274 | a text without line breaks is drawn as one line |
| `Lines.SplitAfterPiece` | src/app/home/page.js:274 | a break-free prefix followed by a break becomes its own first line |
| `Scene.Append` | src/app/home/page.js:168-176 | upload appends exactly one overlay `{x:0, y:0, width:100, height:100, rotation:0, shape:'rectangle'}` with the file's data URL, leaving earlier entries unchanged |
| `Scene.UpdateAt` | src/app/home/page.js:182-186 | only entry `index` changes, by field merge; the length is kept; an out-of-range index changes nothing |
| `Scene.DeleteAt` | src/app/home/page.js:188-189 | a valid index yields the old list with that entry removed and the rest in order (same multiset minus that entry); an invalid index changes nothing |
| `Scene.Merge` | src/app/home/page.js:184 | `{ ...img, ...updates }`: every field the update names takes the update's value, and every other field keeps the overlay's |
| `Scene.MergeNoChange` | src/app/home/page.js:184 | spreading an empty update leaves the overlay unchanged |
| `Scene.MergeThen` | src/app/home/page.js:184 | two successive spreads equal one spread where the later fields win |
| `Scene.UpdateAtTwice` | src/app/home/page.js:182-186 | two updates of the same entry equal one update with the merged patch |
| `Scene.DeleteUndoesAppend` | src/app/home/page.js:168-176 | deleting the entry just uploaded restores the previous list |
| `Scene.UpdateThenDelete` | src/app/home/page.js:182-193 | deleting an entry erases any earlier update to it and touches no other entry |
| `Scene.Place` | src/app/home/page.js:320-327 | painting translates to the overlay's centre and draws the image symmetric about it, covering exactly the overlay's rectangle times the pixel ratio in the frame before `ctx.rotate`; only a circle is clipped, to radius `min(width, height) * scale / 2` |
| `Scene.ClipInsideImage` | src/app/home/page.js:323-326 | for a positive pixel ratio the clip disc of a circle overlay lies inside the drawn image and touches its nearer pair of edges |
| `Viewport.Side` | src/app/home/page.js:340 | the canvas side is at most each container dimension and at most 500, and equals one of them |
| `Viewport.Truncate` | src/app/home/page.js:343-344 | the integer backing-store size is the real product truncated: `n <= v < n + 1` |
| `Viewport.Resize` | src/app/home/page.js:336-349 | the backing store is square, `width == height == floor(side * scale)` |
| `Viewport.LogicalSideBound` | src/app/home/page.js:340-344 | measured back in logical units (`width / scale`) the canvas side is non-negative, square and at most `min(container, 500)` |
| `TextLayout.Layout` | src/app/home/page.js:273-293 | one drawn line per piece of the split text; the first baseline is `textY*scale`; each next baseline is one step `fontSize*lineHeight*scale` lower; all lines share the x anchor of the alignment; the gradient runs from `textY*scale` over `step * #lines`; lines are stroked iff `outlineWidth > 0` |
| `TextLayout.AnchorX` | src/app/home/page.js:287-293 | centred text is anchored at the canvas's middle, right-aligned text `textX*scale` from the right edge, any other alignment `textX*scale` from the left edge |
| `TextLayout.AnchorMirror` | src/app/home/page.js:287-293 | right alignment mirrors left alignment about the canvas's middle, and moving `textX` does not move centred text |
| `TextLayout.LayoutKeepsText` | src/app/home/page.js:274-302 | the drawn line texts are exactly the split pieces, in order, and rejoin to the text |
| `TextLayout.StepPositive` | src/app/home/page.js:275 | a positive font size, line height and pixel ratio give a positive line step |
| `TextLayout.BaselinesIncrease` | src/app/home/page.js:280-285 | with a positive step baselines strictly increase with the line index, and all lie inside the one gradient, at least one step above its lower end |
| `Credits.OrAllowance` | src/app/home/page.js:93-94 | the JavaScript or-default to 5: a missing count and a stored 0 read back as 5, any other count as itself; the result is never 0 |
| `Credits.ResetDue` | src/app/home/page.js:90-97 | a reset is due once at least 24 h have passed since the stored reset time, counted from the epoch when none is stored |
| `Credits.SignIn` | src/app/home/page.js:56-136 | the user is set first; a new user gets 5/5 and the next reset a day after the time the initialisation read, or, if that write fails, keeps the counters shown before; a returning user due for reset (now ≥ last reset + 24 h) gets 5/5 and the next reset a day after the reset time when the reset is written; otherwise, and when that write fails, the stored counts with the or-default to 5 and the next reset a day after the last one |
| `Credits.ResetDueAtNextReset` | src/app/home/page.js:90-118 | the next reset time the sign-in shows is exactly when the stored document next falls due: from the old reset time unless the sign-in wrote a reset, and from the written reset time when it did |
| `Credits.SignInNeverZero` | src/app/home/page.js:93-94 | whenever the sign-in reads a document or writes a fresh one no counter shows 0; only a failed first write keeps a 0 the page already showed |
| `Credits.FailedResetStaysDue` | src/app/home/page.js:97-115 | when a due reset fails to reach the database, the page shows a next reset time that has already passed and the reset stays due later |
| `Credits.SignOut` | src/app/home/page.js:61-66 | signing out clears the user and the reset time and restores 5/5 |
| `Credits.Persist` | src/app/home/page.js:138-157 | the counters change to the new values only with a user and a successful database update; otherwise nothing changes |
| `Credits.MayGenerate` | src/app/home/page.js:196 | a generation is refused for an empty prompt or a non-positive AI counter, and allowed otherwise |
| `Credits.MayExport` | src/app/home/page.js:214 | an export is refused without a user or with a non-positive download counter, and allowed otherwise |
| `Credits.AfterGenerate` | src/app/home/page.js:138-157 | a generation lowers only the AI counter, by one, when the update was stored for a signed-in user; the user and the next reset time are kept |
| `Credits.AfterExport` | src/app/home/page.js:138-157 | an export lowers only the download counter, by one, when the update was stored; the user and the next reset time are kept |
| `Editor.Clamp` | src/app/home/page.js:435-436 | `Math.max(lo, Math.min(hi, v))` is at least `lo`, at most `hi` when the range is non-empty, `v` when `v` is in range, `lo` when `v` is below it or the range is empty, and `hi` when `v` is above a non-empty range |
| `Editor.FirstHit` | src/app/home/page.js:369-372 | `findIndex` returns the lowest index whose closed rectangle contains the point, and none when no overlay contains it |
| `Editor.HitsText` | src/app/home/page.js:387-393 | a text hit lies in `[textX, textX + measure]` horizontally and `[textY - fontSize, textY]` vertically, scaled to physical pixels |
| `Editor.HitsTextLogical` | src/app/home/page.js:387-393 | for a positive pixel ratio the text hit test is exactly the logical box `[textX, textX + measure/scale] x [textY - fontSize, textY]`, the same for every alignment |
| `Editor.OnDown` | src/app/home/page.js:362-400 | if any overlay's closed physical rectangle contains the point, the lowest such index is selected, `isMoving` is set and the pointer is recorded; `isResizing` and handle `bottomRight` are also set iff the point is within `10*scale` of the right and bottom edges. Otherwise a point in `[textX, textX+measure] x [textY-fontSize, textY]` (scaled) starts a text drag without touching the selection. Otherwise only the selection is cleared. The document is never changed |
| `Editor.HitsOverlayLogical` | src/app/home/page.js:369-372 | for a positive pixel ratio the physical hit test equals the logical containment `x <= px <= x+width`, `y <= py <= y+height` |
| `Editor.NearCornerLogical` | src/app/home/page.js:380-381 | for a positive pixel ratio the corner test equals "within 10 logical units of the right edge and of the bottom edge" |
| `Editor.ActiveBranch` | src/app/home/page.js:403-429 | pointer-move does nothing with no flag set, moves whenever `isMoving` is set, resizes only when `isResizing` is set without `isMoving`, and drags the text only when `isMovingText` is the only flag |
| `Editor.OnMove` | src/app/home/page.js:402-440 | with no gesture flag nothing changes; the move branch raises iff the selection names no entry, and otherwise is exactly `DragSelected`: the selected overlay shifts by the pointer delta over `scale`; the resize branch with the bottom-right handle raises iff the selection names no entry, and otherwise is exactly `ResizeSelected`: width and height become `max(20, pointer - origin)`; the text branch is exactly `DragText`, with `textX` clamped to `[0, W/scale]` and `textY` to `[fontSize, H/scale]` (saturating at the bound crossed, and `fontSize` when `H/scale < fontSize`); no branch changes flags, selection or list length |
| `Editor.DragSelected` | src/app/home/page.js:411-420 | the selected overlay moves by `(pointer - last)/scale` on both axes, every other entry and field stays, and the pointer is recorded |
| `Editor.ResizeSelected` | src/app/home/page.js:421-428 | the selected overlay's width and height become `max(20, pointer - origin)` in logical units, so both are at least 20; nothing else changes |
| `Editor.DragText` | src/app/home/page.js:429-440 | the text origin follows the pointer delta while in range; past the left or right edge `textX` is 0 or `W/scale`; above the font size `textY` is `fontSize`, below the bottom it is `H/scale` when `fontSize <= H/scale`, and it is `fontSize` whenever `H/scale < fontSize` (so at least `fontSize` always); only the origin and the pointer change |
| `Editor.OnUp` | src/app/home/page.js:445-450 | release clears all three gesture flags and the handle, keeps the selection, the pointer and the document |
| `Editor.IdleAfterUp` | src/app/home/page.js:403 | after a release a pointer-move changes nothing, and a second release changes nothing either |
| `Editor.OnUpload` | src/app/home/page.js:163-180 | without a file nothing changes; with one, exactly one default overlay is appended and nothing else changes |
| `Editor.OnUpdate` | src/app/home/page.js:182-186 | only the overlay list changes, only at `index`, by field merge; the length is kept |
| `Editor.OnDelete` | src/app/home/page.js:188-193 | the overlay list loses entry `index`; the selection becomes empty iff it was empty or equal to `index`, and otherwise is left as it was (not shifted); nothing else changes |
| `Editor.OnInput` | src/app/home/page.js:159-161 | the text control sets exactly `form.text`, the font-size control exactly `form.fontSize`, the prompt box exactly the prompt; overlays, canvas, pointer, credits and gesture are untouched |
| `Editor.TypedTextIsDrawn` | src/app/home/page.js:159-161 | after typing into the text box the next paint draws exactly the typed text, one line per hard break |
| `Editor.OnResizeView` | src/app/home/page.js:336-349 | only the canvas changes, to exactly `Viewport.Resize` of the container; it is square and its logical side is at most `min(container, 500)` |
| `Editor.OnGenerate` | src/app/home/page.js:195-211 | an empty prompt, a used-up AI allowance or a failed generation changes nothing; otherwise only the text (to the generated text) and the AI counter change, the counter dropping by one iff a user is signed in and the update was stored; user and next reset time are kept |
| `Editor.OnExport` | src/app/home/page.js:213-250 | no user, a used-up download allowance or a failed upload changes nothing; otherwise only the download counter drops, by one, iff the update was stored; user and next reset time are kept |
| `Editor.CreditsStayNonNegative` | src/app/home/page.js:196-241 | starting from non-negative counters, generation and export never make a counter negative |
| `Editor.SignedOutGenerationIsFree` | src/app/home/page.js:139-204 | signed out, an allowed generation replaces the text and leaves every counter unchanged |
| `Session.InitWf` | src/app/home/page.js:35-54 | the mounted page satisfies the gesture invariant and is idle |
| `Session.StepKeepsResizeImpliesMoving` | src/app/home/page.js:374-385 | no event raises `isResizing` without `isMoving` |
| `Session.RunKeepsResizeImpliesMoving` | src/app/home/page.js:374-385 | along every event sequence `isResizing` implies `isMoving`, so the resize branch of pointer-move is never taken |
| `Session.ResizeBranchShadowed` | src/app/home/page.js:411-428 | every state reachable from the mounted page takes the move branch, never the resize branch |
| `Session.StepKeepsWf` | src/app/home/page.js:362-450 | every event keeps the gesture invariant (resize implies move, move implies a valid selection, handle iff resizing) and never raises, except, during a grab, a pointer-down that hits neither an overlay nor the text and a delete at or below the grabbed index |
| `Session.SessionNeverThrows` | src/app/home/page.js:362-450 | along every event sequence from a well-formed state in which no grab meets a pointer-down on empty canvas or a delete at or below the grabbed index, no handler raises and the invariant holds at the end |
| `Session.SecondDownThenMoveThrows` | src/app/home/page.js:362-404 | on the mounted 500 x 500 canvas, grabbing a fresh overlay and then pressing a second button on empty canvas clears the selection but not `isMoving`, and the next pointer-move raises |
| `Session.DeleteDuringGrabThenMoveThrows` | src/app/home/page.js:188-193 | on the mounted canvas, deleting the grabbed overlay before the release leaves `isMoving` set with no selection, and the next pointer-move raises |
| `Session.DeleteBelowGrabThenMoveThrows` | src/app/home/page.js:188-193 | on the mounted canvas, deleting an earlier overlay while the last one is grabbed leaves the selection one past the end with `isMoving` set, and the next pointer-move raises |
| `Session.TextDragStaysOnCanvas` | src/app/home/page.js:429-437 | once the canvas is sized to its container, a text-drag step at the same pixel ratio keeps `0 <= textX <= min(container, 500)` and `textY >= fontSize` |
| `Session.CornerDragMovesOverlay` | src/app/home/page.js:376-385 | pressing in the corner of a fresh 100 x 100 overlay sets both flags, and moving from (95, 95) to (150, 150) moves the overlay to (55, 55) at size 100 x 100 |
| `Session.MovesTelescope` | src/app/home/page.js:411-420 | a sequence of moves while an overlay is grabbed telescopes: the overlay ends displaced by (final pointer - pointer before the first move)/scale, other entries are unchanged, and the last pointer is the final one, assuming a re-render between moves |
| `Session.DragFollowsPointer` | src/app/home/page.js:369-420 | pressing on an overlay and dragging moves the lowest overlay under the press by exactly the pointer's logical displacement, assuming a re-render between moves |

## Left out

- Firebase authentication, Firestore reads and writes, Storage upload, the Gemini call and `fetchWorldTime` are network I/O. They appear only as their outcomes:
  - the stored document (`Credits.StoredCredits`);
  - the generated text or its failure;
  - whether an upload or a credit update succeeded;
  - world times as integer milliseconds.
- `saveUserDataToFirestore`, the download link, `alert` and `console` calls have no effect on the modelled state.
- Painting is left out: `fillText`/`strokeText`, colour stops, background fill, `drawImage`, the circle clip and `ctx.rotate` are foreign rendering calls. The model stops at the numbers handed to them (`TextLayout.Layout`, `Scene.Place`); the rotation angle `rotation * PI / 180` is not computed, because it needs trigonometry.
- Every handler runs to completion against the state the previous event left, and React re-renders between events. The page does not guarantee this, and the model does not follow these effects:
  - the move branch reads `overlayImages[selectedImage]` from the render's closure (src/app/home/page.js:416), while `lastMousePosRef` is updated at once (:420), so two pointer-moves handled before a re-render lose the first delta; `Session.MovesTelescope` and `Session.DragFollowsPointer` hold only with a re-render between moves (the text branch uses `prev` and composes in any case);
  - generation, export and sign-in are asynchronous; the credit writes use the `user` and counters captured at the click (:139, :204, :241), so a sign-out during a generation leaves the AI counter at the old value minus one, not 5;
  - the generated text (:203) overwrites any edit typed while the request ran;
  - sign-in sets `user` (:59) before the counters arrive (:83-136), so for a while the page shows the new user with the previous counters.
- `FileReader` completes asynchronously (`reader.onloadend`, src/app/home/page.js:167). The `Upload` event stands for that completion, not for the file choice, so it may come after events that happened later in the page; every such interleaving is just another event order.
- A read that fails still appends an entry, with `src: null` (`reader.result`). Overlay sources are strings here, so that entry is not modelled.
- Asynchronous image decoding (`image.onload`), the paint-order race it causes and the `drawCanvas()` call at the end of pointer-move are left out. They are React scheduling and concurrency, and they change no state.
- The zoom buttons, dark mode, section toggling, JSX/CSS and the `isGenerating`/`isGeneratingText` busy flags are UI chrome.
- Colours, font family, `maxWidth` and the outline colour are not modelled, because no handler's arithmetic reads them.
- src/app/page.js and src/app/layout.js are not part of this model. They hold routing and static markup.
- Numbers are Dafny reals, so IEEE-754 rounding is not modelled. `measureText` is a real parameter.
- The text alignment is a closed variant. `Left` stands for every value other than `'center'` and `'right'`, all of which take the code's last branch.
- `Credits.OrAllowance`: models integer counts only. The `|| 5` fallback for other falsy stored values (NaN, empty string) is not modelled, because Firestore holds numbers here.
- `Credits.AfterExport`: requires a signed-in user, because the export guard has already refused the signed-out case.
- `Session.Deliverable`: during a grab, rules out a pointer-down that hits neither an overlay nor the text, and a delete at or below the grabbed index. `Session.StepKeepsWf` and `Session.SessionNeverThrows` do not cover those orders. The page does deliver them (a second mouse button, or a delete button pressed from the keyboard), and then pointer-move can raise (`Session.SecondDownThenMoveThrows`, `Session.DeleteBelowGrabThenMoveThrows`).
- Features the code does not have, and so neither does the model:
  - word-wrap with padding;
  - top-most-first hit order;
  - hit-testing against the wrapped block;
  - long-press disambiguation;
  - a touch path.
