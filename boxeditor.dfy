/** The box editor's pointer handling, lifted out of the toolkit.

    A Box is a resizable rectangle that tracks which of its edges the
    pointer hovers near; a Scene creates boxes by dragging on empty canvas.
    The toolkit's inputs become parameters: the pointer position, the
    buttons held, and whether the scene's hit-test found an item. */
module BoxEditor {
  import opened Geometry
  import opened Tolerance
  import opened Cursors

  datatype Option<T> = None | Some(value: T)

  /** The mouse buttons held, as the toolkit's bit mask. */
  type Buttons = bv32
  const LeftButton: Buttons := 0x0000_0001

  /** The flags a hover at (px, py) computes: each edge is compared, with
      relative tolerance, against the pointer coordinate on its axis. */
  function FlagsAt(r: Rect, px: real, py: real): (f: EdgeFlags)
    ensures f.left <==> Abs(px - r.Left()) <= RelTol * MaxAbs(px, r.Left())
    ensures f.right <==> Abs(px - r.Right()) <= RelTol * MaxAbs(px, r.Right())
    ensures f.top <==> Abs(py - r.Top()) <= RelTol * MaxAbs(py, r.Top())
    ensures f.bottom <==> Abs(py - r.Bottom()) <= RelTol * MaxAbs(py, r.Bottom())
  {
    EdgeFlags(IsClose(px, r.x), IsClose(px, r.x + r.w), IsClose(py, r.y), IsClose(py, r.y + r.h))
  }

  /** A pointer exactly on an edge coordinate sets that edge's flag. */
  lemma OnEdgeSetsFlag(r: Rect, px: real, py: real)
    ensures px == r.Left() ==> FlagsAt(r, px, py).left
    ensures px == r.Right() ==> FlagsAt(r, px, py).right
    ensures py == r.Top() ==> FlagsAt(r, px, py).top
    ensures py == r.Bottom() ==> FlagsAt(r, px, py).bottom
  {
  }

  /** The tolerance is relative to the coordinate, not to the box: an edge
      lying on an axis is only hit by a pointer exactly on it. */
  lemma EdgeOnAxisNeedsExactHit(r: Rect, px: real, py: real)
    ensures r.Left() == 0.0 ==> (FlagsAt(r, px, py).left <==> px == 0.0)
    ensures r.Top() == 0.0 ==> (FlagsAt(r, px, py).top <==> py == 0.0)
  {
  }

  /** The rectangle after a resize step edits the flagged sides, before it
      is normalized: each flagged side moves to the pointer, every other
      side keeps its coordinate. */
  function EditSides(r: Rect, f: EdgeFlags, px: int, py: int): (e: Rect)
    ensures e.Left() == (if f.left then px as real else r.Left())
    ensures e.Right() == (if f.right then px as real else r.Right())
    ensures e.Top() == (if f.top then py as real else r.Top())
    ensures e.Bottom() == (if f.bottom then py as real else r.Bottom())
  {
    var r1 := if f.left then r.SetLeft(px as real) else r;
    var r2 := if f.right then r1.SetRight(px as real) else r1;
    var r3 := if f.top then r2.SetTop(py as real) else r2;
    if f.bottom then r3.SetBottom(py as real) else r3
  }

  /** The rectangle a resize step stores: the edited one, normalized. Its
      edges are the edited edges, reordered so that left <= right and
      top <= bottom. */
  function Resized(r: Rect, f: EdgeFlags, px: int, py: int): (n: Rect)
    ensures n.IsNormalized()
    ensures multiset{n.Left(), n.Right()} == multiset{EditSides(r, f, px, py).Left(), EditSides(r, f, px, py).Right()}
    ensures multiset{n.Top(), n.Bottom()} == multiset{EditSides(r, f, px, py).Top(), EditSides(r, f, px, py).Bottom()}
  {
    EditSides(r, f, px, py).Normalized()
  }

  /** Dragging the right edge of a normalized box to a point right of its
      left edge changes the right coordinate and nothing else. */
  lemma ResizeRightEdgeOnly(r: Rect, px: int, py: int)
    requires r.IsNormalized() && px as real >= r.Left()
    ensures Resized(r, EdgeFlags(false, true, false, false), px, py) == r.SetRight(px as real)
    ensures Resized(r, EdgeFlags(false, true, false, false), px, py).Right() == px as real
  {
  }

  /** Dragging the right edge past the left edge turns the box over: the
      old left edge becomes the right edge and the pointer the left edge. */
  lemma ResizePastOppositeEdge(r: Rect, px: int, py: int)
    requires r.IsNormalized() && px as real < r.Left()
    ensures Resized(r, EdgeFlags(false, true, false, false), px, py).Left() == px as real
    ensures Resized(r, EdgeFlags(false, true, false, false), px, py).Right() == r.Left()
  {
  }

  /** With no flag set a resize step only normalizes. */
  lemma ResizeWithoutFlags(r: Rect, px: int, py: int)
    ensures Resized(r, NoFlags, px, py) == r.Normalized()
  {
  }

  /** A box item: its rectangle, whether it is selected, the four edge
      flags, the resize-armed flag and the rectangle captured on press.
      The edge flags do not exist until the first hover creates them;
      `hovered` records whether that has happened, and `left`, `right`,
      `top`, `bottom` are meaningful only once it has. Likewise the
      captured rectangle is absent until the first left press. */
  class Box {
    var rect: Rect
    var selected: bool
    var moving: bool
    var hovered: bool
    var left: bool
    var right: bool
    var top: bool
    var bottom: bool
    var originRect: Option<Rect>

    function Flags(): EdgeFlags
      reads this
    {
      EdgeFlags(left, right, top, bottom)
    }

    /** A box is only ever armed for resizing after a hover has created
        its edge flags, so a resize step never reads a missing flag. */
    ghost predicate Valid()
      reads this
    {
      moving ==> hovered
    }

    /** A new, unselected, idle box with the given rectangle. */
    constructor (r: Rect)
      ensures Valid()
      ensures rect == r && !selected && !moving && !hovered && originRect == None
    {
      rect := r;
      selected := false;
      moving := false;
      hovered := false;
      left, right, top, bottom := false, false, false, false;
      originRect := None;
    }

    method SetSelected(s: bool)
      modifies this`selected
      ensures selected == s
    {
      selected := s;
    }

    /** Hover at (px, py): clears the four flags, sets each one that is
        close to the pointer and returns the cursor. The old flags play no
        part in the result. */
    method HoverMove(px: real, py: real) returns (cursor: Cursor)
      requires Valid()
      modifies this`hovered, this`left, this`right, this`top, this`bottom
      ensures Valid() && hovered
      ensures Flags() == FlagsAt(rect, px, py)
      ensures cursor == CursorFor(Flags())
    {
      top := false;
      right := false;
      bottom := false;
      left := false;
      hovered := true;

      cursor := ArrowCursor;
      if IsClose(px, rect.x) {
        left := true;
      }
      if IsClose(px, rect.x + rect.w) {
        right := true;
      }
      if IsClose(py, rect.y) {
        top := true;
      }
      if IsClose(py, rect.y + rect.h) {
        bottom := true;
      }

      if top || bottom {
        cursor := SizeVerCursor;
      }
      if left || right {
        cursor := SizeHorCursor;
      }
      if (top && right) || (bottom && left) {
        cursor := SizeBDiagCursor;
      }
      if (top && left) || (bottom && right) {
        cursor := SizeFDiagCursor;
      }
    }

    /** Press: only a press with exactly the left button held does
        anything. It captures the rectangle and arms resizing when some
        edge flag is set; with no flag set, `moving` keeps its value.
        `ok` is false when the press reads flags that no hover has
        created yet (the handler raises there, after the capture). */
    method MousePress(buttons: Buttons) returns (ok: bool)
      requires Valid()
      modifies this`originRect, this`moving
      ensures Valid()
      ensures ok <==> buttons != LeftButton || old(hovered)
      ensures originRect == if buttons == LeftButton then Some(rect) else old(originRect)
      ensures moving == if buttons == LeftButton && hovered && AnyFlag(Flags()) then true else old(moving)
    {
      ok := true;
      if buttons == LeftButton {
        originRect := Some(rect);
        if !hovered {
          ok := false;
        } else if left || right || top || bottom {
          moving := true;
        }
      }
    }

    /** Move to the rounded pointer (px, py): while armed, the flagged
        sides follow the pointer and the normalized result is stored;
        otherwise the rectangle is left alone. */
    method MouseMove(px: int, py: int)
      requires Valid()
      modifies this`rect
      ensures Valid()
      ensures rect == if moving then Resized(old(rect), Flags(), px, py) else old(rect)
    {
      if moving {
        var r := rect;
        if left {
          r := r.SetLeft(px as real);
        }
        if right {
          r := r.SetRight(px as real);
        }
        if top {
          r := r.SetTop(py as real);
        }
        if bottom {
          r := r.SetBottom(py as real);
        }
        rect := r.Normalized();
      }
    }

    /** Release always disarms. */
    method MouseRelease()
      requires Valid()
      modifies this`moving
      ensures Valid() && !moving
    {
      moving := false;
    }
  }

  /** The canvas: the boxes added to it, in order, and the box being
      created by the current drag, if any. */
  class Scene {
    var current: Box?
    var items: seq<Box>

    /** The box being created is one of the scene's boxes, and no box is
        added twice. */
    ghost predicate Valid()
      reads this
    {
      (current != null ==> current in items) &&
      (forall i, j :: 0 <= i < j < |items| ==> items[i] != items[j])
    }

    /** An empty scene (the background image is not part of this model). */
    constructor ()
      ensures Valid() && current == null && items == []
    {
      current := null;
      items := [];
    }

    /** Press at (px, py): on empty canvas (`hit` is false), with exactly
        the left button and no box in progress, a zero-size selected box
        at the pointer is appended and becomes the current one. Otherwise
        nothing changes, so at most one box is ever in progress. */
    method MousePress(hit: bool, buttons: Buttons, px: real, py: real) returns (created: bool)
      requires Valid()
      modifies this
      ensures Valid()
      ensures created <==> !hit && buttons == LeftButton && old(current) == null
      ensures created ==> current != null && fresh(current) && items == old(items) + [current]
      ensures created ==> current.rect == Rect(px, py, 0.0, 0.0) && current.selected
      ensures created ==> !current.moving && !current.hovered && current.Valid()
      ensures !created ==> current == old(current) && items == old(items)
    {
      created := false;
      if !hit {
        if buttons == LeftButton {
          if current == null {
            var rect := Rect(0.0, 0.0, 0.0, 0.0).SetTopLeft(px, py).SetBottomRight(px, py);
            var box := new Box(rect);
            box.SetSelected(true);
            current := box;
            items := items + [box];
            created := true;
          }
        }
      }
    }

    /** Move to (px, py): with exactly the left button held and a box in
        progress, that box's bottom-right corner follows the pointer and
        its top-left corner stays. The result is not normalized. */
    method MouseMove(buttons: Buttons, px: real, py: real)
      requires Valid()
      modifies current
      ensures Valid()
      ensures current != null && buttons == LeftButton ==>
                (current.rect.Left() == old(current.rect.Left()) &&
                 current.rect.Top() == old(current.rect.Top()) &&
                 current.rect.Right() == px && current.rect.Bottom() == py)
      ensures current != null && buttons != LeftButton ==> current.rect == old(current.rect)
      ensures current != null ==>
                (current.selected == old(current.selected) && current.moving == old(current.moving) &&
                 current.hovered == old(current.hovered) && current.Flags() == old(current.Flags()) &&
                 current.originRect == old(current.originRect))
    {
      if buttons == LeftButton {
        if current != null {
          var rect := current.rect;
          rect := rect.SetBottomRight(px, py);
          current.rect := rect;
        }
      }
    }

    /** Release forgets the box in progress, whatever it was; every box
        stays in the scene. */
    method MouseRelease()
      requires Valid()
      modifies this`current
      ensures Valid() && current == null && items == old(items)
    {
      current := null;
    }
  }
}
