/** The rectangle and hit-testing arithmetic of BaseMenuSystem
    (engines/illusions/menusystem.cpp): the header lines come first, then one
    rectangle per visible item, each one line high, all as wide as the text. */
module MenuGeometry {
  datatype Option<T> = None | Some(value: T)

  datatype Point = Point(x: int, y: int)

  datatype Rect = Rect(topLeft: Point, bottomRight: Point)

  /** What the font and the screen text report for the active menu: the text's
      top-left corner (getTextInfoPosition), its width (getTextInfoDimensions)
      and the height of one line (getCharHeight() + getLineIncr()). */
  datatype Metrics = Metrics(origin: Point, width: int, charHeight: int)
  {
    predicate Valid()
    {
      charHeight > 0 && width >= 0
    }
  }

  /** The scroll window of the active menu: `lines` header lines
      (_menuLinesCount), the first listed item (_hoveredMenuItemIndex3), the last
      listed item (_field54) and the number of items actually drawn
      (_menuItemCount).  Item indices start at 1. */
  datatype Window = Window(lines: nat, first: nat, last: nat, count: nat)

  const Uint32Range: int := 0x1_0000_0000

  /** C++ integer division, which truncates toward zero. */
  function TruncDiv(a: int, b: int): (q: int)
    requires b > 0
    ensures a >= 0 ==> q >= 0 && q * b <= a < q * b + b
    ensures a < 0 ==> q <= 0 && q * b - b < a <= q * b
  {
    if a >= 0 then a / b else -((-a) / b)
  }

  /** calcMenuItemRect: the rectangle of the `index`-th drawn line below the
      header. */
  function ItemRect(m: Metrics, lines: nat, index: nat): (r: Rect)
    requires index >= 1
    ensures r.topLeft.x == m.origin.x && r.bottomRight.x == m.origin.x + m.width
    ensures r.bottomRight.y == r.topLeft.y + m.charHeight
    ensures r.topLeft.y == m.origin.y + m.charHeight * (lines + index - 1)
  {
    var top := Point(m.origin.x, m.origin.y + m.charHeight * (index + lines - 1));
    Rect(top, Point(top.x + m.width, top.y + m.charHeight))
  }

  /** Consecutive drawn lines touch: each starts where the previous one ends. */
  lemma ItemsAdjoin(m: Metrics, lines: nat, index: nat)
    requires index >= 1
    ensures ItemRect(m, lines, index + 1).topLeft.y == ItemRect(m, lines, index).bottomRight.y
  {
    calc {
      m.charHeight * (lines + (index + 1) - 1);
      m.charHeight * (lines + index - 1) + m.charHeight;
    }
  }

  /** The rectangle item `i` of the window occupies on screen. */
  function ItemBox(m: Metrics, w: Window, i: nat): Rect
    requires i >= w.first
  {
    ItemRect(m, w.lines, i - w.first + 1)
  }

  /** The point lies in item `i`'s rectangle: inclusive horizontally, top edge
      included and bottom edge excluded vertically. */
  predicate OnItem(m: Metrics, w: Window, i: nat, pt: Point)
    requires i >= w.first
  {
    var r := ItemBox(m, w, i);
    r.topLeft.x <= pt.x <= r.bottomRight.x && r.topLeft.y <= pt.y < r.bottomRight.y
  }

  /** The items the hit test can report: listed (first..last) and drawn, where
      the drawn bound `first + count - 1` is unsigned arithmetic. */
  predicate Reachable(w: Window, i: nat)
  {
    w.first <= i <= w.last && i <= (w.first + w.count - 1) % Uint32Range
  }

  /** calcMenuItemMousePos: the left end of the middle of item `index`'s line, or
      nothing when the item is not drawn; the bound `first + count` is unsigned
      arithmetic. */
  function ItemMousePos(m: Metrics, w: Window, index: nat): (r: Option<Point>)
    requires m.Valid()
    ensures r.Some? <==> w.first <= index < (w.first + w.count) % Uint32Range
    ensures r.Some? ==> OnItem(m, w, index, r.value) && r.value.x == m.origin.x
    ensures r.Some? ==> r.value.y == ItemBox(m, w, index).topLeft.y + m.charHeight / 2
  {
    if index < w.first || index >= (w.first + w.count) % Uint32Range then None
    else
      var rect := ItemRect(m, w.lines, index - w.first + 1);
      Some(Point(rect.topLeft.x, rect.topLeft.y + (rect.bottomRight.y - rect.topLeft.y) / 2))
  }

  /** calcMenuItemIndexAtPoint: the item whose line holds the point, measured
      from the first drawn line; rejected if the point is above that line, left
      or right of the text, or past the listed or drawn items. */
  function IndexAtPoint(m: Metrics, w: Window, pt: Point): (r: Option<nat>)
    requires m.Valid()
    ensures r.Some? ==> Reachable(w, r.value)
    ensures r.Some? ==> OnItem(m, w, r.value, pt)
  {
    var rect := ItemRect(m, w.lines, 1);
    var q := TruncDiv(pt.y - rect.topLeft.y, rect.bottomRight.y - rect.topLeft.y);
    if pt.y < rect.topLeft.y || pt.x < rect.topLeft.x || pt.x > rect.bottomRight.x then None
    else
      var index := w.first + q;
      if index > w.last || index > (w.first + w.count - 1) % Uint32Range then None
      else
        assert OnItem(m, w, index, pt) by {
          LineOffset(m, w, index, pt.y);
        }
        Some(index)
  }

  /** Item `i`'s line starts `i - first` line heights below the first drawn
      line. */
  lemma LineOffset(m: Metrics, w: Window, i: nat, y: int)
    requires m.Valid() && i >= w.first
    ensures ItemBox(m, w, i).topLeft.y == ItemRect(m, w.lines, 1).topLeft.y + m.charHeight * (i - w.first)
  {
    calc {
      m.charHeight * (w.lines + (i - w.first + 1) - 1);
      m.charHeight * w.lines + m.charHeight * (i - w.first);
    }
  }

  lemma MulMono(h: int, x: int, y: int)
    requires h >= 0 && x <= y
    ensures h * x <= h * y
  {
    assert h * y - h * x == h * (y - x);
  }

  /** The quotient is the line: an offset in the k-th band of height h divides
      to k. */
  lemma DivInBand(a: int, h: int, k: int)
    requires h > 0 && k >= 0 && h * k <= a < h * k + h
    ensures a / h == k
  {
    var q, r := a / h, a % h;
    assert a == h * q + r && 0 <= r < h;
    if q < k {
      assert h * (q + 1) == h * q + h;
      MulMono(h, q + 1, k);
      assert false;
    } else if q > k {
      assert h * (k + 1) == h * k + h;
      MulMono(h, k + 1, q);
      assert false;
    }
  }

  /** The hit test reports item `i` exactly when `i` is reachable and the point
      lies in its rectangle. */
  lemma {:induction false} IndexAtPointIff(m: Metrics, w: Window, pt: Point, i: nat)
    requires m.Valid()
    ensures IndexAtPoint(m, w, pt) == Some(i) <==> Reachable(w, i) && OnItem(m, w, i, pt)
  {
    if Reachable(w, i) && OnItem(m, w, i, pt) {
      var rect := ItemRect(m, w.lines, 1);
      LineOffset(m, w, i, pt.y);
      var a := pt.y - rect.topLeft.y;
      DivInBand(a, m.charHeight, i - w.first);
      assert TruncDiv(a, rect.bottomRight.y - rect.topLeft.y) == i - w.first;
    }
  }

  /** Pointing the cursor at a drawn, listed item and hit-testing the cursor
      gives the item back. */
  lemma MousePosHitsItem(m: Metrics, w: Window, i: nat)
    requires m.Valid() && w.first <= i <= w.last && w.first + w.count <= Uint32Range
    requires ItemMousePos(m, w, i).Some?
    ensures IndexAtPoint(m, w, ItemMousePos(m, w, i).value) == Some(i)
  {
    assert Reachable(w, i);
    IndexAtPointIff(m, w, ItemMousePos(m, w, i).value, i);
  }
}
