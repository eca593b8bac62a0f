/** Menus of the Illusions engine (engines/illusions/menusystem.cpp): header
    lines, items carrying one of four actions, and the text drawMenuText
    assembles for the screen. */
module MenuData {
  import opened MenuGeometry
  import opened MenuText

  /** The four MenuAction variants and their parameters. */
  datatype MenuAction =
    | EnterMenu(menuId: int)
    | LeaveMenu
    | ReturnChoice(choiceIndex: nat)
    | EnterQueryMenu(menuId: int, confirmationChoiceIndex: nat)

  datatype MenuItem = MenuItem(text: seq<bv8>, action: MenuAction)

  /** BaseMenu.  Its header lines and items are filled by addText and
      addMenuItem while the game builds its menus; here they are given to the
      constructor.  _field2C18 is the one field the menu system overwrites. */
  class BaseMenu {
    const fontId: bv32
    const field8: bv8
    const fieldA: bv8
    const fieldC: bv8
    const fieldE: bv8
    const defaultMenuItemIndex: nat
    const header: seq<seq<bv8>>
    const items: seq<MenuItem>
    var field2C18: nat

    constructor (fontId: bv32, field8: bv8, fieldA: bv8, fieldC: bv8, fieldE: bv8,
                 defaultMenuItemIndex: nat, header: seq<seq<bv8>>, items: seq<MenuItem>)
      ensures this.fontId == fontId && this.field8 == field8 && this.fieldA == fieldA
      ensures this.fieldC == fieldC && this.fieldE == fieldE
      ensures this.defaultMenuItemIndex == defaultMenuItemIndex
      ensures this.header == header && this.items == items
    {
      this.fontId, this.field8, this.fieldA, this.fieldC, this.fieldE := fontId, field8, fieldA, fieldC, fieldE;
      this.defaultMenuItemIndex, this.header, this.items := defaultMenuItemIndex, header, items;
    }
  }

  /** The header lines, each followed by a line break. */
  function HeaderText(h: seq<seq<bv8>>): seq<bv16>
  {
    if |h| == 0 then [] else HeaderText(h[..|h| - 1]) + Units(h[|h| - 1]) + [CR]
  }

  /** Items `first`..`last` (numbered from 1), each followed by a line break
      unless it is the menu's final item. */
  function ItemsText(items: seq<MenuItem>, first: nat, last: nat): seq<bv16>
    requires 1 <= first && (first <= last ==> last <= |items|)
    decreases last
  {
    if last < first then []
    else ItemsText(items, first, last - 1) + Units(items[last - 1].text) + (if last + 1 <= |items| then [CR] else [])
  }

  /** The NUL-terminated text drawMenuText builds for the window first..last. */
  function TextOf(m: BaseMenu, first: nat, last: nat): seq<bv16>
    requires 1 <= first && last <= |m.items|
  {
    HeaderText(m.header) + ItemsText(m.items, first, last) + [NUL]
  }

  /** The number of items the window first..last lists. */
  function Span(first: nat, last: nat): nat
  {
    if first <= last then last - first + 1 else 0
  }

  /** An insertText call: the text, its font, the fixed 300 by 180 box, the
      position (4, 4) for a framed menu and (0, 0) otherwise, the flags (25
      when the two frame bytes differ, 1 otherwise) and the frame bytes. */
  datatype TextRequest = TextRequest(text: seq<bv16>, fontId: bv32, width: int, height: int,
                                     position: Point, flags: bv32, field8: bv8, fieldA: bv8)

  function RequestOf(m: BaseMenu, t: seq<bv16>): (rq: TextRequest)
    ensures rq.text == t && rq.fontId == m.fontId && rq.width == 300 && rq.height == 180
    ensures rq.position == if m.field8 != 0 then Point(4, 4) else Point(0, 0)
    ensures rq.flags == if m.field8 != m.fieldA then 25 else 1
  {
    var v := if m.field8 != 0 then 4 else 0;
    TextRequest(t, m.fontId, 300, 180, Point(v, v), if m.field8 != m.fieldA then 25 else 1, m.field8, m.fieldA)
  }

  /** What the screen text reports for an inserted text: whether all of it
      fit, the offset at which the part that did not fit starts, and the
      position and width of the text box. */
  datatype Placement = Placement(fits: bool, restAt: nat, origin: Point, width: int)

  /** A placement the screen text can give for this request: the rest starts
      inside the text and the box has a width. */
  predicate Sound(p: Placement, rq: TextRequest)
  {
    (!p.fits ==> p.restAt < |rq.text|) && p.width >= 0
  }

  /** drawMenuText's result: one per listed item, less one and less the line
      breaks left over when the text did not fit, all in unsigned 32-bit
      arithmetic. */
  function DrawnLineCount(n: nat, t: seq<bv16>, p: Placement): (c: nat)
    requires !p.fits ==> p.restAt < |t|
    ensures c < Uint32Range
    ensures p.fits ==> c == n % Uint32Range
  {
    if p.fits then n % Uint32Range else (n - 1 - CountCR(t[p.restAt..])) % Uint32Range
  }

  /** Every header line and item text is free of NULs and line breaks. */
  predicate PlainMenu(m: BaseMenu)
  {
    (forall i :: 0 <= i < |m.header| ==> Plain(m.header[i])) &&
    (forall i :: 0 <= i < |m.items| ==> Plain(m.items[i].text))
  }

  lemma {:induction false} HeaderLength(h: seq<seq<bv8>>, k: nat)
    requires k <= |h|
    ensures |HeaderText(h[..k])| <= |HeaderText(h)|
    decreases |h|
  {
    if k < |h| {
      var h' := h[..|h| - 1];
      assert h[..k] == h'[..k];
      HeaderLength(h', k);
    } else {
      assert h[..k] == h;
    }
  }

  lemma HeaderStep(h: seq<seq<bv8>>, i: nat)
    requires i < |h|
    ensures HeaderText(h[..i + 1]) == HeaderText(h[..i]) + Units(h[i]) + [CR]
  {
    assert h[..i + 1][..i] == h[..i];
  }

  lemma {:induction false} ItemsLength(items: seq<MenuItem>, first: nat, j: nat, last: nat)
    requires 1 <= first && j <= last <= |items|
    ensures |ItemsText(items, first, j)| <= |ItemsText(items, first, last)|
    decreases last
  {
    if j < last {
      ItemsLength(items, first, j, last - 1);
    }
  }

  /** A header of plain lines is NUL-free and breaks once per line. */
  lemma {:induction false} HeaderLines(h: seq<seq<bv8>>)
    requires forall i :: 0 <= i < |h| ==> Plain(h[i])
    ensures NoNul(HeaderText(h)) && CountCR(HeaderText(h)) == |h|
  {
    if |h| > 0 {
      var h' := h[..|h| - 1];
      HeaderLines(h');
      UnitsPlain(h[|h| - 1]);
      CountCRAppend(HeaderText(h'), Units(h[|h| - 1]) + [CR]);
      CountCRAppend(Units(h[|h| - 1]), [CR]);
      assert HeaderText(h) == HeaderText(h') + (Units(h[|h| - 1]) + [CR]);
    }
  }

  /** Plain items first..last are NUL-free and break once per item except
      after the menu's final item. */
  lemma {:induction false} ItemsLines(items: seq<MenuItem>, first: nat, last: nat)
    requires 1 <= first && last <= |items|
    requires forall i :: 0 <= i < |items| ==> Plain(items[i].text)
    ensures NoNul(ItemsText(items, first, last))
    ensures CountCR(ItemsText(items, first, last)) ==
            Span(first, last) - (if first <= last == |items| then 1 else 0)
    decreases last
  {
    if first <= last {
      var prev := ItemsText(items, first, last - 1);
      var tail := if last + 1 <= |items| then [CR] else [];
      ItemsLines(items, first, last - 1);
      UnitsPlain(items[last - 1].text);
      CountCRAppend(prev, Units(items[last - 1].text) + tail);
      CountCRAppend(Units(items[last - 1].text), tail);
      assert ItemsText(items, first, last) == prev + (Units(items[last - 1].text) + tail);
      if tail == [] {
        assert CountCR(tail) == 0;
      }
    }
  }

  /** A plain menu's text holds one line break per header line and per item
      shown except the last item of a window that reaches the menu's end,
      and nothing before its final NUL ends it early. */
  lemma TextLines(m: BaseMenu, first: nat, last: nat)
    requires 1 <= first && last <= |m.items| && PlainMenu(m)
    ensures NoNul(TextOf(m, first, last)[..|TextOf(m, first, last)| - 1])
    ensures CountCR(TextOf(m, first, last)) ==
            |m.header| + Span(first, last) - (if first <= last == |m.items| then 1 else 0)
  {
    var h, it := HeaderText(m.header), ItemsText(m.items, first, last);
    HeaderLines(m.header);
    ItemsLines(m.items, first, last);
    assert TextOf(m, first, last)[..|TextOf(m, first, last)| - 1] == h + it;
    CountCRAppend(h, it + [NUL]);
    CountCRAppend(it, [NUL]);
    assert TextOf(m, first, last) == h + (it + [NUL]);
  }

  /** When the text is cut, drawMenuText counts the item lines that are
      complete before the cut: the line breaks before it, less the header's.
      Stated for a plain menu whose window reaches its final item, as in
      activateMenu; the difference wraps when the cut falls inside the
      header. */
  lemma {:induction false} CutCountsCompleteLines(m: BaseMenu, first: nat, p: Placement)
    requires 1 <= first <= |m.items| && PlainMenu(m)
    requires !p.fits && p.restAt < |TextOf(m, first, |m.items|)|
    ensures DrawnLineCount(Span(first, |m.items|), TextOf(m, first, |m.items|), p) ==
            (CountCR(TextOf(m, first, |m.items|)[..p.restAt]) - |m.header|) % Uint32Range
  {
    var t := TextOf(m, first, |m.items|);
    TextLines(m, first, |m.items|);
    assert t[..p.restAt] == t[..|t| - 1][..p.restAt];
    assert t == t[..p.restAt] + t[p.restAt..];
    CountCRAppend(t[..p.restAt], t[p.restAt..]);
  }
}
