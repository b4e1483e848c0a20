/** Whole gestures, checked against the handlers' contracts alone. */
module Scenarios {
  import opened Geometry
  import opened Cursors
  import opened BoxEditor

  /** On the box (0,0)-(100,100) a pointer at x = 99 is within 2% of the
      right edge, so only `right` is set; a pointer at (1, 1) sets no flag,
      because the left and top edges lie on the axes, where only an exact
      hit is close. The cursor there is the arrow. */
  lemma HoverOnSquareBox()
    ensures FlagsAt(Rect(0.0, 0.0, 100.0, 100.0), 99.0, 50.0) == EdgeFlags(false, true, false, false)
    ensures FlagsAt(Rect(0.0, 0.0, 100.0, 100.0), 1.0, 1.0) == NoFlags
    ensures CursorFor(FlagsAt(Rect(0.0, 0.0, 100.0, 100.0), 1.0, 1.0)) == ArrowCursor
    ensures FlagsAt(Rect(0.0, 0.0, 100.0, 100.0), 0.0, 0.0) == EdgeFlags(true, false, true, false)
    ensures CursorFor(FlagsAt(Rect(0.0, 0.0, 100.0, 100.0), 0.0, 0.0)) == SizeFDiagCursor
  {
  }

  /** Growing a box towards the upper left of its anchor leaves a negative
      width and height: the scene's growth step does not normalize. */
  lemma GrowthIsNotNormalized()
    ensures !Rect(10.0, 10.0, 0.0, 0.0).SetBottomRight(5.0, 5.0).IsNormalized()
  {
  }

  /** Press on empty canvas at (x0, y0), move to (x1, y1), release: the
      scene gains exactly one selected box spanning the drag, and no box
      is left in progress. */
  method DragOnEmptyCanvas(scene: Scene, x0: real, y0: real, x1: real, y1: real) returns (box: Box)
    requires scene.Valid() && scene.current == null
    modifies scene
    ensures scene.Valid() && scene.current == null
    ensures scene.items == old(scene.items) + [box]
    ensures box.rect.Left() == x0 && box.rect.Top() == y0
    ensures box.rect.Right() == x1 && box.rect.Bottom() == y1
    ensures box.selected
  {
    var created := scene.MousePress(false, LeftButton, x0, y0);
    box := scene.current;
    var again := scene.MousePress(false, LeftButton, x0, y0);
    assert !again;
    scene.MouseMove(LeftButton, x1, y1);
    scene.MouseRelease();
  }

  /** Hover on the right edge of a normalized box, away from its other
      edges, press with the left button, drag to x = px (not left of the
      box) and release: only the right edge moves, and the box ends idle. */
  method DragRightEdge(box: Box, hy: real, px: int, py: int)
    requires box.Valid() && box.rect.IsNormalized()
    requires FlagsAt(box.rect, box.rect.Right(), hy) == EdgeFlags(false, true, false, false)
    requires px as real >= box.rect.Left()
    modifies box
    ensures box.Valid() && !box.moving
    ensures box.rect == old(box.rect).SetRight(px as real)
  {
    var cursor := box.HoverMove(box.rect.Right(), hy);
    assert cursor == SizeHorCursor;
    var ok := box.MousePress(LeftButton);
    assert ok && box.moving;
    box.MouseMove(px, py);
    box.MouseRelease();
  }

  /** The box (0,0)-(50,100) dragged by its right edge to x = 70 becomes
      (0,0)-(70,100). */
  method DragRightEdgeTo70() returns (box: Box)
    ensures box.rect == Rect(0.0, 0.0, 70.0, 100.0) && !box.moving
  {
    box := new Box(Rect(0.0, 0.0, 50.0, 100.0));
    assert FlagsAt(box.rect, 50.0, 50.0) == EdgeFlags(false, true, false, false);
    DragRightEdge(box, 50.0, 70, 50);
  }
}
