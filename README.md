# Box editor pointer handling, in Dafny

The box editor is a canvas where the user draws rectangular annotation
boxes over an image. The user then resizes them by dragging their edges. This
project models the editor's pointer handling with the toolkit taken out:

- **Rect** (`geometry.dfy`): the toolkit's floating-point rectangle. It is
  stored as a corner plus a signed width and height. It has edge setters and
  `normalized()`, and everything else in the model is built on it.
- **isclose** (`tolerance.dfy`): Python's `math.isclose` with `rel_tol=0.02`
  and `abs_tol=0`. It is written the way CPython computes it: equal, or
  the difference is within 2% of either argument's magnitude. It is also
  proved equal to the documented `|a-b| <= 0.02 * max(|a|,|b|)` form.
- **Cursor choice** (`cursor.dfy`): a pure function from the four edge
  flags to a cursor shape. A reference definition runs the handler's
  overriding assignments as an ordered rule list. The function is proved
  equal to that list, where the last matching rule wins.
- **Box** (`boxeditor.dfy`, class `Box`): a hover recomputes the edge
  flags and the cursor. A left-button press arms resizing. A move while
  armed edits the flagged sides and stores the normalized rectangle. A
  release disarms.
- **Scene** (`boxeditor.dfy`, class `Scene`): a left press on empty canvas
  creates a zero-size, selected box and makes it the box in progress. A
  left-button move drags that box's bottom-right corner. A release forgets
  the box in progress.
- **Gestures** (`scenarios.dfy`): whole press/move/release sequences,
  proved from the handlers' contracts alone.

Inputs that the toolkit supplies become parameters:

- the pointer position: real for hovers and for the scene; integral for a
  box's move, which rounds the pointer first;
- the button mask, with the toolkit's value 0x1 for the left button;
- the result of the scene's hit-test at the pointer, as a boolean.

The edge flags do not exist until the first hover creates them. The model
records this in the field `Box.hovered`. A left press before any hover reads
a missing flag, and the handler raises at that point. `Box.MousePress`
reports this with `ok == false`, after the rectangle has already been
captured. The invariant `Box.Valid()` says that a box is armed (`moving`)
only after a hover. So a resize step never reads a missing flag.

Two behaviours of the code differ from what the editor's description
suggests. The model follows the code in both:

- The tolerance is relative to the coordinate's own magnitude, not to the
  box. On the box (0,0)-(100,100), a pointer at (1,1) sets no flag and shows
  the arrow cursor. The edges at 0 are hit only by a pointer exactly at 0.
  A pointer at x = 99 does set `right`. See `Scenarios.HoverOnSquareBox`
  and `BoxEditor.EdgeOnAxisNeedsExactHit`.
- A box's own resize step normalizes the rectangle. The scene's growth step
  does not, so a box dragged up and to the left of its anchor has a
  negative width and height. See `Scenarios.GrowthIsNotNormalized`.

## Model

| member | source | states |
|---|---|---|
| `Geometry.Rect.SetLeft` | boxeditor.py:30-31 | the left edge moves to the value; the right, top and bottom edges are unchanged |
| `Geometry.Rect.SetRight` | boxeditor.py:32-33 | the right edge moves to the value; the left, top and bottom edges are unchanged |
| `Geometry.Rect.SetTop` | boxeditor.py:34-35 | the top edge moves to the value; the bottom, left and right edges are unchanged |
| `Geometry.Rect.SetBottom` | boxeditor.py:36-37 | the bottom edge moves to the value; the top, left and right edges are unchanged |
| `Geometry.Rect.SetTopLeft` | boxeditor.py:125 | the top-left corner moves to the point; the bottom-right corner is unchanged |
| `Geometry.Rect.SetBottomRight` | boxeditor.py:138-140 | the bottom-right corner moves to the point; the top-left corner is unchanged |
| `Geometry.Rect.Normalized` | boxeditor.py:39 | the result is normalized; its left and right are the min and max of the old left and right, and likewise for top and bottom |
| `Geometry.NormalizedIdempotent` | boxeditor.py:39 | a normalized rectangle is its own normalization, so normalizing twice equals normalizing once |
| `Geometry.NormalizedKeepsEdges` | boxeditor.py:39 | normalizing keeps the multiset of horizontal and of vertical edge coordinates: edges are reordered, never invented |
| `Geometry.Rect.CornerRect` | boxeditor.py:44-46 | a normalized 10 by 10 square sharing the rectangle's bottom-right corner |
| `Tolerance.IsCloseIffWithinRelative` | boxeditor.py:89-96 | the isclose test holds iff the difference is at most 2% of the larger magnitude |
| `Tolerance.IsCloseReflexiveSymmetric` | boxeditor.py:89-96 | every coordinate is close to itself, and closeness is symmetric |
| `Tolerance.IsCloseToZero` | boxeditor.py:89-96 | a value is close to 0 only when it is 0 |
| `Tolerance.IsCloseSameSign` | boxeditor.py:89-96 | close values are both positive, both negative or both zero |
| `Cursors.CursorFor` | boxeditor.py:98-106 | arrow iff no flag; forward diagonal iff top-left or bottom-right; back diagonal iff top-right or bottom-left and not forward; horizontal iff left or right and neither top nor bottom; vertical iff top or bottom and neither left nor right |
| `Cursors.ApplyRulesNoneMatch` | boxeditor.py:88-106 | when no rule's condition holds, the sequential assignments leave the initial cursor |
| `Cursors.ApplyRulesLastMatchWins` | boxeditor.py:98-106 | when rule k holds and no later rule does, the sequential assignments end with rule k's cursor |
| `Cursors.CursorForFollowsRules` | boxeditor.py:88-106 | the cursor function equals the handler's four rules applied in order from the arrow cursor |
| `Cursors.BothDiagonalsGiveForward` | boxeditor.py:103-106 | when both diagonal conditions hold, as with all four flags, the forward diagonal wins |
| `BoxEditor.FlagsAt` | boxeditor.py:89-96 | each flag holds iff the pointer coordinate on its axis is within 2% (relative to the larger magnitude) of that edge |
| `BoxEditor.OnEdgeSetsFlag` | boxeditor.py:89-96 | a pointer exactly on an edge coordinate sets that edge's flag |
| `BoxEditor.EdgeOnAxisNeedsExactHit` | boxeditor.py:89-94 | when the left (top) edge is at 0, the left (top) flag is set only by a pointer exactly at 0 |
| `BoxEditor.EditSides` | boxeditor.py:28-37 | each flagged side takes the pointer's x (left, right) or y (top, bottom); each unflagged side keeps its coordinate |
| `BoxEditor.Resized` | boxeditor.py:28-39 | the stored rectangle is normalized and its edges are the edited edges, reordered |
| `BoxEditor.ResizeRightEdgeOnly` | boxeditor.py:30-39 | dragging only the right edge of a normalized box to a point not left of it changes the right edge and nothing else |
| `BoxEditor.ResizePastOppositeEdge` | boxeditor.py:32-39 | dragging the right edge past the left edge makes the pointer the left edge and the old left edge the right edge |
| `BoxEditor.ResizeWithoutFlags` | boxeditor.py:28-39 | with no flag set, a resize step only normalizes |
| `BoxEditor.Box.constructor` | boxeditor.py:12-21 | a new box has the given rectangle, is unselected and not moving, and has neither edge flags nor a captured rectangle yet |
| `BoxEditor.Box.SetSelected` | boxeditor.py:129 | the selection flag takes the given value, and nothing else changes |
| `BoxEditor.Box.HoverMove` | boxeditor.py:82-110 | the flags are recomputed from the rectangle and the pointer alone, whatever they were before; the returned cursor is the cursor function of the new flags; nothing else changes |
| `BoxEditor.Box.MousePress` | boxeditor.py:48-54 | with exactly the left button: the rectangle is captured, and moving is set iff some flag is set (it keeps its value otherwise); before any hover it reports the raised error; with any other buttons nothing changes |
| `BoxEditor.Box.MouseMove` | boxeditor.py:23-42 | while armed, the rectangle becomes the resize of the old one by the flags and the pointer; otherwise it is unchanged; nothing else changes |
| `BoxEditor.Box.MouseRelease` | boxeditor.py:56-58 | moving is false afterwards and nothing else changes |
| `BoxEditor.Scene.constructor` | boxeditor.py:114-116 | a new scene has no box in progress and no boxes |
| `BoxEditor.Scene.MousePress` | boxeditor.py:120-132 | a box is created iff nothing is hit, exactly the left button is held and no box is in progress; the new box is appended, becomes current, is selected, idle and zero-size at the pointer; otherwise nothing changes; the box in progress is always one of the scene's boxes, and no box is listed twice |
| `BoxEditor.Scene.MouseMove` | boxeditor.py:134-141 | with exactly the left button and a box in progress, that box's bottom-right corner becomes the pointer and its top-left corner is unchanged (no normalization); otherwise its rectangle is unchanged; its other fields never change |
| `BoxEditor.Scene.MouseRelease` | boxeditor.py:143-145 | no box is in progress afterwards, whatever it was, and the scene's boxes are unchanged |
| `Scenarios.HoverOnSquareBox` | boxeditor.py:89-106 | on the box (0,0)-(100,100): x = 99 sets only right; (1,1) sets no flag and gives the arrow; (0,0) sets left and top and gives the forward diagonal |
| `Scenarios.GrowthIsNotNormalized` | boxeditor.py:138-140 | growing a box up and to the left of its anchor leaves it not normalized |
| `Scenarios.DragOnEmptyCanvas` | boxeditor.py:120-145 | press, a second press, move and release on empty canvas add exactly one selected box spanning the drag, and leave no box in progress |
| `Scenarios.DragRightEdge` | boxeditor.py:23-110 | hover on the right edge only, left press, move and release change only the right edge of a normalized box and leave it idle |
| `Scenarios.DragRightEdgeTo70` | boxeditor.py:23-110 | the box (0,0)-(50,100) dragged by its right edge to x = 70 becomes (0,0)-(70,100) |

## Left out

- Painting (`Box.paint`, `drawBackground`): pure rendering. This includes the repaint that `paint` requests at its own end.
- Loading the background image and setting the scene rectangle: file I/O through the toolkit. The scene's constructor starts with no boxes and no box in progress.
- The application and view wrappers: they contain no logic.
- The toolkit's default handlers (every `super()` event call): they are treated as no-ops on the modelled state. In particular, the toolkit's drag-to-move and click-to-select are not modelled. Nor is the delivery of the scene's events to the box under the pointer.
- The scene's hit-test `itemAt`: it is a boolean input.
- Coordinate transforms: item and scene positions are taken to coincide, so a box moved by the toolkit's drag is not modelled.
- `setCursor`: `Box.HoverMove` returns the cursor shape instead of applying it.
- `prepareGeometryChange` and `update`: repaint bookkeeping.
- Floating point: coordinates are exact reals, so isclose has no rounding, infinities or NaN.
- `Box.MouseMove`: takes the pointer already rounded to integers. The toolkit's rounding rule is not modelled.
