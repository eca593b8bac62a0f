/** BaseMenuSystem (engines/illusions/menusystem.cpp): the stack of open menus,
    the scroll window and hovered item of the active one, the choice returned
    to the calling script and the inactivity timeout. */
module MenuSystem {
  import opened MenuGeometry
  import opened MenuText
  import opened MenuData

  /** The game state openMenu switches to while a menu is shown. */
  const MenuGameState: int := 4

  /** The int16 variable a script asks the chosen offset to be written to. */
  class ChoiceCell {
    var value: int
  }

  /** Where setMouseCursorToMenuItem(i) leaves a cursor that was at `c`. */
  function CursorAt(t: Metrics, w: Window, i: nat, c: Point): Point
    requires t.Valid()
  {
    match ItemMousePos(t, w, i)
    case Some(p) => p
    case None => c
  }

  /** removeText: the screen text drops its newest text, if it has one. */
  function RemoveText(s: seq<Placement>): (r: seq<Placement>)
    ensures |s| > 0 ==> r == s[..|s| - 1]
    ensures |s| == 0 ==> r == []
  {
    if |s| == 0 then s else s[..|s| - 1]
  }

  /** The texts left after removing the `k` newest. */
  function Drop(s: seq<Placement>, k: nat): seq<Placement>
  {
    if k <= |s| then s[..|s| - k] else []
  }

  lemma DropStep(s: seq<Placement>, k: nat)
    ensures RemoveText(Drop(s, k)) == Drop(s, k + 1)
  {
    if k < |s| {
      assert s[..|s| - k][..|s| - k - 1] == s[..|s| - (k + 1)];
    }
  }

  /** The item update() takes as hovered when the pointer is at `pt`: the one
      the hit test reports, or 0 for none. */
  function HoveredAt(t: Metrics, w: Window, pt: Point): (i: nat)
    requires t.Valid()
    ensures i != 0 ==> Reachable(w, i) && OnItem(t, w, i, pt)
  {
    match IndexAtPoint(t, w, pt)
    case Some(i) => i
    case None => 0
  }

  /** An item is hovered exactly when it is reachable and under the pointer. */
  lemma HoveredAtIff(t: Metrics, w: Window, pt: Point, i: nat)
    requires t.Valid() && i > 0
    ensures HoveredAt(t, w, pt) == i <==> Reachable(w, i) && OnItem(t, w, i, pt)
  {
    IndexAtPointIff(t, w, pt, i);
  }

  /** The inactivity timeout: enabled, suspended while a submenu is open
      (_isTimeOutReached), its duration, the choice it returns and its start
      and end times. */
  datatype Timer = Timer(enabled: bool, reached: bool, duration: U32, choice: nat, start: U32, end: U32)

  /** A value of C++'s uint32. */
  type U32 = x: int | 0 <= x < Uint32Range

  /** The end of a timeout of `duration` started at `start`, in unsigned
      32-bit arithmetic. */
  function EndTime(duration: U32, start: U32): U32
  {
    (duration + start) % Uint32Range
  }

  /** setTimeOutDuration(duration, choice) at time `now`: a positive duration
      arms the timer from now, zero disables it. */
  function SetDuration(t: Timer, duration: U32, choice: nat, now: U32): (r: Timer)
    ensures r.enabled <==> duration != 0
    ensures duration == 0 ==> r.(enabled := t.enabled) == t
    ensures duration != 0 ==> r == Timer(true, false, duration, choice, now, EndTime(duration, now))
  {
    if duration > 0 then Timer(true, false, duration, choice, now, EndTime(duration, now))
    else t.(enabled := false)
  }

  /** One updateTimeOut step, given whether the menu stack is empty, whether
      the update asks for a restart, the time and the expiry test: the timer
      after it and whether it fired. */
  function Tick(t: Timer, stackEmpty: bool, reset: bool, now: U32, expired: (U32, U32) -> bool): (r: (Timer, bool))
    ensures !t.enabled ==> r == (t, false)
    ensures t.enabled ==> r.0.reached == !stackEmpty && r.0.duration == t.duration && r.0.choice == t.choice
    ensures r.1 ==> t.enabled && stackEmpty && !r.0.enabled
    ensures !stackEmpty ==> !r.1 && r.0.start == t.start && r.0.end == t.end && r.0.enabled == t.enabled
  {
    if !t.enabled then (t, false)
    else
      var restart := reset || (stackEmpty && t.reached);
      var t1 := t.(reached := !stackEmpty);
      if !stackEmpty then (t1, false)
      else if restart then (t1.(start := now, end := EndTime(t.duration, now)), false)
      else if expired(t.start, t.end) then (t1.(enabled := false), true)
      else (t1, false)
  }

  /** Coming back to an empty stack after the timer was suspended restarts it
      from now, whatever the update asked; it does not fire. */
  lemma ResumeRestarts(t: Timer, reset: bool, now: U32, expired: (U32, U32) -> bool)
    requires t.enabled && t.reached
    ensures Tick(t, true, reset, now, expired) == (t.(reached := false, start := now, end := EndTime(t.duration, now)), false)
  {
  }

  /** A timer fires at most once: the step after it fired does nothing. */
  lemma FiresOnce(t: Timer, e1: bool, r1: bool, n1: U32, x1: (U32, U32) -> bool,
                  e2: bool, r2: bool, n2: U32, x2: (U32, U32) -> bool)
    requires Tick(t, e1, r1, n1, x1).1
    ensures Tick(Tick(t, e1, r1, n1, x1).0, e2, r2, n2, x2) == (Tick(t, e1, r1, n1, x1).0, false)
  {
  }

  /** A timer armed at `now` with an empty stack fires on the next quiet update
      exactly when the expiry test holds for its start and its end `duration`
      later. */
  lemma ArmedFiresAtExpiry(t: Timer, duration: U32, choice: nat, now: U32, later: U32,
                           expired: (U32, U32) -> bool)
    requires duration != 0
    ensures Tick(SetDuration(t, duration, choice, now), true, false, later, expired).1 <==> expired(now, EndTime(duration, now))
  {
  }

  class BaseMenuSystem {
    /** getMenuById: the game's menus by id. */
    const menus: map<int, BaseMenu>
    /** Every menu the game has built, the table's among them. */
    const allMenus: set<BaseMenu>
    /** How the screen text places an inserted text. */
    const screen: TextRequest -> Placement
    /** getCharHeight() + getLineIncr() of each font. */
    const fontHeight: bv32 -> int
    /** The size of MenuTextBuilder's buffer. */
    const textCapacity: nat
    /** The size of the offsets table a script hands over. */
    const choiceCount: nat

    var isActive: bool
    var menuStack: seq<BaseMenu>
    var activeMenu: BaseMenu?
    var menuLinesCount: nat
    /** _hoveredMenuItemIndex3: the first listed item. */
    var first: nat
    /** _field54: the last listed item. */
    var field54: nat
    var menuItemCount: nat
    var hovered: nat
    var hovered2: nat
    /** The texts on screen, newest last. */
    var screenTexts: seq<Placement>
    /** How many texts were on screen when the menu was opened. */
    ghost var baseTexts: nat
    /** The position of the mouse cursor actor. */
    var cursorPos: Point
    var savedCursorPos: Point
    var gameState: int
    var savedGameState: int
    var queryConfirmationChoiceIndex: nat
    var menuCallerThreadId: bv32
    /** The thread ids notified so far, oldest first. */
    var notified: seq<bv32>
    var menuChoiceOffsets: seq<int>
    var menuChoiceOffset: ChoiceCell?
    var isTimeOutEnabled: bool
    var isTimeOutReached: bool
    var timeOutDuration: U32
    var timeOutMenuChoiceIndex: nat
    var timeOutStartTime: U32
    var timeOutEndTime: U32

    constructor (menus: map<int, BaseMenu>, screen: TextRequest -> Placement, fontHeight: bv32 -> int,
                 textCapacity: nat, choiceCount: nat)
      ensures this.menus == menus && allMenus == menus.Values && this.screen == screen && this.fontHeight == fontHeight
      ensures this.textCapacity == textCapacity && this.choiceCount == choiceCount
      ensures !isActive && menuStack == [] && activeMenu == null && screenTexts == []
      ensures !isTimeOutEnabled && menuChoiceOffset == null && |menuChoiceOffsets| == choiceCount
    {
      this.menus, this.screen, this.fontHeight := menus, screen, fontHeight;
      allMenus := menus.Values;
      this.textCapacity, this.choiceCount := textCapacity, choiceCount;
      isActive, menuStack, activeMenu, screenTexts := false, [], null, [];
      isTimeOutEnabled, menuChoiceOffset := false, null;
      menuChoiceOffsets := seq(choiceCount, _ => 0);
    }

    /** The screen text places every text soundly and every font has a line
        height. */
    ghost predicate ScreenOk()
    {
      (forall rq :: Sound(screen(rq), rq)) && (forall f :: fontHeight(f) > 0)
    }

    /** An action leads to a menu that exists and to a choice the offsets
        table covers. */
    predicate ActionOk(a: MenuAction)
    {
      match a
      case EnterMenu(id) => id in menus
      case LeaveMenu => true
      case ReturnChoice(ci) => ci <= choiceCount
      case EnterQueryMenu(id, _) => id in menus
    }

    /** A menu the system can show: its text fits the builder, its default
        item exists and its actions are sound. */
    predicate Ready(m: BaseMenu)
    {
      m.defaultMenuItemIndex <= |m.items| && |TextOf(m, 1, |m.items|)| <= textCapacity &&
      forall i :: 0 <= i < |m.items| ==> ActionOk(m.items[i].action)
    }

    /** The fixed configuration: a sound screen and menus that are all ready. */
    ghost predicate TableOk()
    {
      ScreenOk() && (forall id :: id in menus ==> menus[id] in allMenus) &&
      forall m {:trigger Ready(m)} :: m in allMenus ==> Ready(m)
    }

    /** Every menu the system holds is one of the table's. */
    ghost predicate StackOk()
      reads this`menuStack, this`activeMenu
    {
      (forall k :: 0 <= k < |menuStack| ==> menuStack[k] in allMenus) &&
      (activeMenu != null ==> activeMenu in allMenus)
    }

    /** The offsets table covers every choice the timeout can return. */
    ghost predicate ChoicesOk()
      reads this`menuChoiceOffsets, this`isTimeOutEnabled, this`timeOutMenuChoiceIndex
    {
      |menuChoiceOffsets| == choiceCount && (isTimeOutEnabled ==> timeOutMenuChoiceIndex <= choiceCount)
    }

    /** While a menu is open: one text on screen per open menu level above
        what was there before, a placed active text, and a window inside the
        active menu. */
    ghost predicate Showing()
      reads this`isActive, this`activeMenu, this`screenTexts, this`baseTexts, this`menuStack, this`field54
    {
      isActive ==>
        activeMenu != null && |screenTexts| == baseTexts + |menuStack| + 1 &&
        screenTexts[|screenTexts| - 1].width >= 0 && field54 <= |activeMenu.items|
    }

    /** Valid, but for the text of the menu about to be shown: what
        enterSubMenu, leaveSubMenu and openMenu set up before activating it. */
    ghost predicate Staged()
      reads this`menuStack, this`isActive, this`screenTexts, this`baseTexts, this`menuChoiceOffsets,
            this`isTimeOutEnabled, this`timeOutMenuChoiceIndex
    {
      TableOk() && (forall k :: 0 <= k < |menuStack| ==> menuStack[k] in allMenus) && ChoicesOk() &&
      (isActive ==> |screenTexts| == baseTexts + |menuStack|)
    }

    ghost predicate Valid()
      reads this
    {
      TableOk() && StackOk() && ChoicesOk() && Showing()
    }

    function Cell(): set<ChoiceCell>
      reads this
    {
      if menuChoiceOffset == null then {} else {menuChoiceOffset}
    }

    function CellValue(): int
      reads this, Cell()
    {
      if menuChoiceOffset == null then 0 else menuChoiceOffset.value
    }

    /** The geometry of the active menu's text box. */
    function TextBox(): Metrics
      reads this`screenTexts, this`activeMenu
      requires activeMenu != null && |screenTexts| > 0
    {
      var p := screenTexts[|screenTexts| - 1];
      MenuGeometry.Metrics(p.origin, p.width, fontHeight(activeMenu.fontId))
    }

    function ScrollWindow(): Window
      reads this`menuLinesCount, this`first, this`field54, this`menuItemCount
    {
      MenuGeometry.Window(menuLinesCount, first, field54, menuItemCount)
    }

    /** How the screen places menu `m`'s full text. */
    function Layout(m: BaseMenu): Placement
    {
      screen(RequestOf(m, TextOf(m, 1, |m.items|)))
    }

    /** activateMenu's _menuItemCount for `m`: the drawn line count, capped by
        the number of items. */
    function ShownItems(m: BaseMenu): (n: nat)
      requires ScreenOk()
      ensures n <= |m.items|
    {
      var v := DrawnLineCount(|m.items|, TextOf(m, 1, |m.items|), Layout(m));
      if |m.items| <= v then |m.items| else v
    }

    /** What activateMenu(m) leaves: `m` active with its whole item list as
        window, its text placed on top of `below`. */
    predicate Shows(m: BaseMenu, below: seq<Placement>)
      reads this`activeMenu, this`menuLinesCount, m`field2C18, this`first, this`field54, this`screenTexts, this`menuItemCount
      requires ScreenOk()
    {
      activeMenu == m && menuLinesCount == |m.header| && m.field2C18 == |m.items| &&
      first == 1 && field54 == |m.items| && screenTexts == below + [Layout(m)] &&
      menuItemCount == ShownItems(m)
    }

    /** The caller's bookkeeping is untouched: its notifications, its thread
        id and the choice variable. */
    twostate predicate CallerKept()
      reads this, Cell()
    {
      notified == old(notified) && menuCallerThreadId == old(menuCallerThreadId) &&
      menuChoiceOffset == old(menuChoiceOffset) && CellValue() == old(CellValue())
    }

    /** The script-facing state is untouched: game state, activity and the
        caller's bookkeeping. */
    twostate predicate SessionKept()
      reads this, Cell()
    {
      gameState == old(gameState) && isActive == old(isActive) && CallerKept()
    }

    /** The active menu, its window and its hovered item are untouched. */
    twostate predicate ViewKept()
      reads this
    {
      activeMenu == old(activeMenu) && menuLinesCount == old(menuLinesCount) &&
      first == old(first) && field54 == old(field54) && menuItemCount == old(menuItemCount) &&
      hovered == old(hovered) && hovered2 == old(hovered2)
    }

    /** What showing `m` after the texts `below` leaves, with its first listed
        item hovered and pointed at by a cursor that was at `c`. */
    predicate ShowsHovered(m: BaseMenu, below: seq<Placement>, c: Point)
      reads this`activeMenu, this`menuLinesCount, m`field2C18, this`first, this`field54, this`screenTexts, this`menuItemCount, this`hovered, this`hovered2, this`cursorPos
      requires ScreenOk()
    {
      Shows(m, below) && hovered == first && hovered2 == first &&
      TextBox().Valid() && cursorPos == CursorAt(TextBox(), ScrollWindow(), first, c)
    }

    /** enterSubMenu(m): the old active menu pushed and `m` shown; the session
        untouched. */
    twostate predicate EnteredSubMenu(m: BaseMenu)
      reads this, m, Cell()
      requires ScreenOk()
    {
      menuStack == old(menuStack) + [old(activeMenu)] &&
      ShowsHovered(m, old(screenTexts), old(cursorPos)) && SessionKept()
    }

    /** leaveSubMenu: the top of the stack popped and shown again in place of
        the two newest texts; the session untouched. */
    twostate predicate LeftSubMenu()
      reads this, allMenus, Cell()
      requires ScreenOk() && old(|menuStack| > 0 && menuStack[|menuStack| - 1] in allMenus)
    {
      menuStack == old(menuStack[..|menuStack| - 1]) &&
      ShowsHovered(old(menuStack[|menuStack| - 1]), RemoveText(RemoveText(old(screenTexts))), old(cursorPos)) &&
      SessionKept()
    }

    /** What closeMenu changes: the stack emptied with one text removed per
        level and one for the menu itself, the game state and the cursor
        restored, the system inactive. */
    twostate predicate ClosedFrom()
      reads this
    {
      menuStack == [] && !isActive &&
      screenTexts == Drop(old(screenTexts), |old(menuStack)| + 1) &&
      gameState == old(savedGameState) && cursorPos == old(savedCursorPos)
    }

    /** closeMenu, with the view and the caller's bookkeeping untouched. */
    twostate predicate Closed()
      reads this, Cell()
    {
      ClosedFrom() && ViewKept() && CallerKept()
    }

    /** openMenu(m) with the input cursor at `c`: the system active with an
        empty stack, the cursor and the game state saved, the menu game state
        entered and `m` shown above what was on screen. */
    twostate predicate Opened(m: BaseMenu, c: Point)
      reads this, m, Cell()
      requires ScreenOk()
    {
      isActive && menuStack == [] && savedCursorPos == c && savedGameState == old(gameState) &&
      gameState == MenuGameState && baseTexts == |old(screenTexts)| &&
      ShowsHovered(m, old(screenTexts), old(cursorPos)) && CallerKept()
    }

    /** selectMenuChoiceIndex(ci): the chosen offset written out when there is
        a choice and a variable for it, the caller notified and forgotten, the
        menu closed. */
    twostate predicate Selected(ci: nat)
      reads this, Cell()
      requires old(ci > 0 && menuChoiceOffset != null ==> ci <= |menuChoiceOffsets|)
    {
      menuChoiceOffset == old(menuChoiceOffset) &&
      (if ci > 0 && menuChoiceOffset != null then CellValue() == old(menuChoiceOffsets[ci - 1])
       else CellValue() == old(CellValue())) &&
      notified == old(notified) + [old(menuCallerThreadId)] && menuCallerThreadId == 0 &&
      ClosedFrom() && ViewKept()
    }

    /** The menus whose saved item count action `a` may overwrite. */
    function Targets(a: MenuAction): set<BaseMenu>
      reads this
      requires ActionOk(a)
    {
      match a
      case EnterMenu(id) => {menus[id]}
      case LeaveMenu => if |menuStack| > 0 then {menuStack[|menuStack| - 1]} else {}
      case ReturnChoice(_) => {}
      case EnterQueryMenu(id, _) => {menus[id]}
    }

    /** What running action `a` does; the confirmation index changes only for
        a query menu. */
    twostate predicate Executed(a: MenuAction)
      reads this, allMenus, Cell()
      requires TableOk() && ActionOk(a) && old(StackOk())
      requires old(a.ReturnChoice? && a.choiceIndex > 0 && menuChoiceOffset != null ==>
                   a.choiceIndex <= |menuChoiceOffsets|)
    {
      match a
      case EnterMenu(id) =>
        EnteredSubMenu(menus[id]) && queryConfirmationChoiceIndex == old(queryConfirmationChoiceIndex)
      case LeaveMenu =>
        (if old(|menuStack|) > 0 then LeftSubMenu() else Closed()) &&
        queryConfirmationChoiceIndex == old(queryConfirmationChoiceIndex)
      case ReturnChoice(ci) =>
        Selected(ci) && queryConfirmationChoiceIndex == old(queryConfirmationChoiceIndex)
      case EnterQueryMenu(id, c) =>
        EnteredSubMenu(menus[id]) && queryConfirmationChoiceIndex == c
    }

    /** drawMenuText's text building: the header lines and items first..last,
        with the line count the item loop reaches. */
    method BuildText(m: BaseMenu, firstItem: nat, lastItem: nat) returns (t: seq<bv16>, lineCount: nat)
      requires 1 <= firstItem && lastItem <= |m.items|
      requires |TextOf(m, firstItem, lastItem)| <= textCapacity
      ensures t == TextOf(m, firstItem, lastItem) && lineCount == Span(firstItem, lastItem)
    {
      var b := new MenuTextBuilder(textCapacity);
      AppendHeader(b, m.header);
      lineCount := AppendItems(b, m.items, firstItem, lastItem);
      b.Finalize();
      t := b.text[..b.pos + 1];
    }

    /** drawMenuText's header loop: each header line and a line break. */
    static method AppendHeader(b: MenuTextBuilder, h: seq<seq<bv8>>)
      requires b.Valid() && b.pos + |HeaderText(h)| <= b.text.Length
      modifies b`pos, b.text
      ensures b.Valid() && b.Contents() == old(b.Contents()) + HeaderText(h)
    {
      ghost var before := b.Contents();
      var i := 0;
      while i < |h|
        invariant 0 <= i <= |h| && b.Valid() && b.Contents() == before + HeaderText(h[..i])
      {
        HeaderStep(h, i);
        HeaderLength(h, i + 1);
        ghost var cur := HeaderText(h[..i]);
        b.AppendString(h[i]);
        b.AppendNewLine();
        assert b.Contents() == before + cur + Units(h[i]) + [CR];
        i := i + 1;
      }
      assert h[..i] == h;
    }

    /** drawMenuText's item loop over first..last: each item's text, and a
        line break unless it is the menu's final item; returns the number of
        items appended. */
    static method AppendItems(b: MenuTextBuilder, items: seq<MenuItem>, firstItem: nat, lastItem: nat)
      returns (lineCount: nat)
      requires 1 <= firstItem && lastItem <= |items|
      requires b.Valid() && b.pos + |ItemsText(items, firstItem, lastItem)| <= b.text.Length
      modifies b`pos, b.text
      ensures b.Valid() && b.Contents() == old(b.Contents()) + ItemsText(items, firstItem, lastItem)
      ensures lineCount == Span(firstItem, lastItem)
    {
      ghost var before := b.Contents();
      lineCount := 0;
      var i := firstItem;
      while i <= lastItem
        invariant firstItem <= i <= lastItem + 1 || (i == firstItem && lastItem < firstItem)
        invariant b.Valid() && b.Contents() == before + ItemsText(items, firstItem, i - 1)
        invariant lineCount == Span(firstItem, i - 1)
        decreases lastItem + 1 - i
      {
        ghost var cur := ItemsText(items, firstItem, i - 1);
        ghost var units := Units(items[i - 1].text);
        ghost var tail: seq<bv16> := if i + 1 <= |items| then [CR] else [];
        assert ItemsText(items, firstItem, i) == cur + units + tail;
        ItemsLength(items, firstItem, i, lastItem);
        b.AppendString(items[i - 1].text);
        if i + 1 <= |items| {
          b.AppendNewLine();
        }
        Regroup(before, cur, units, tail);
        lineCount := lineCount + 1;
        i := i + 1;
      }
    }

    /** drawMenuText's correction when the text was cut: one less, and one
        less per line break left over, in unsigned 32-bit arithmetic. */
    static method CountRestLines(t: seq<bv16>, at: nat, n: nat) returns (lineCount: nat)
      requires at < |t| && t[|t| - 1] == NUL
      ensures lineCount == (n - 1 - CountCR(t[at..])) % Uint32Range
    {
      var c: int := n - 1;
      var p := at;
      while t[p] != NUL
        invariant at <= p < |t|
        invariant n - 1 - CountCR(t[at..]) == c - CountCR(t[p..])
        decreases |t| - p
      {
        assert t[p..][1..] == t[p + 1..];
        if t[p] == CR {
          c := c - 1;
        }
        p := p + 1;
      }
      lineCount := c % Uint32Range;
    }

    /** drawMenuText: places the text of the window first..field54 on screen
        and reports how many item lines it shows. */
    method DrawMenuText(m: BaseMenu) returns (lineCount: nat)
      requires ScreenOk() && 1 <= first && field54 <= |m.items|
      requires |TextOf(m, first, field54)| <= textCapacity
      modifies this`screenTexts
      ensures screenTexts == old(screenTexts) + [screen(RequestOf(m, TextOf(m, first, field54)))]
      ensures lineCount == DrawnLineCount(Span(first, field54), TextOf(m, first, field54),
                                          screen(RequestOf(m, TextOf(m, first, field54))))
    {
      var t, n := BuildText(m, first, field54);
      var p := screen(RequestOf(m, t));
      assert Sound(p, RequestOf(m, t));
      screenTexts := screenTexts + [p];
      if p.fits {
        lineCount := n % Uint32Range;
      } else {
        lineCount := CountRestLines(t, p.restAt, n);
      }
    }

    /** activateMenu. */
    method ActivateMenu(m: BaseMenu)
      requires ScreenOk() && Ready(m)
      modifies this`activeMenu, this`menuLinesCount, m`field2C18, this`first, this`field54,
               this`screenTexts, this`menuItemCount
      ensures Shows(m, old(screenTexts)) && TextBox().Valid()
    {
      activeMenu := m;
      menuLinesCount := |m.header|;
      m.field2C18 := |m.items|;
      first := 1;
      field54 := m.field2C18;
      var v2 := DrawMenuText(m);
      if m.field2C18 <= v2 {
        menuItemCount := m.field2C18;
      } else {
        menuItemCount := v2;
      }
    }

    /** setMouseCursorToMenuItem. */
    method SetMouseCursorToMenuItem(i: nat)
      requires activeMenu != null && |screenTexts| > 0 && TextBox().Valid()
      modifies this`cursorPos
      ensures cursorPos == CursorAt(TextBox(), ScrollWindow(), i, old(cursorPos))
    {
      var p := ItemMousePos(TextBox(), ScrollWindow(), i);
      if p.Some? {
        cursorPos := p.value;
      }
    }

    /** enterSubMenu. */
    method EnterSubMenu(m: BaseMenu)
      requires Valid() && activeMenu != null && m in allMenus
      modifies this`menuStack, this`activeMenu, this`menuLinesCount, m`field2C18,
               this`first, this`field54, this`screenTexts, this`menuItemCount,
               this`hovered, this`hovered2, this`cursorPos
      ensures Valid() && EnteredSubMenu(m)
    {
      ghost var below, c := screenTexts, cursorPos;
      menuStack := menuStack + [activeMenu];
      Show(m);
      assert ShowsHovered(m, below, c) && SessionKept();
    }

    /** The hovered items set to the first listed one and the cursor moved
        onto it. */
    method HoverFirst()
      requires activeMenu != null && |screenTexts| > 0 && TextBox().Valid()
      modifies this`hovered, this`hovered2, this`cursorPos
      ensures hovered == first && hovered2 == first && cursorPos == CursorAt(TextBox(), ScrollWindow(), first, old(cursorPos))
    {
      hovered := first;
      hovered2 := first;
      SetMouseCursorToMenuItem(hovered);
    }

    /** leaveSubMenu. */
    method LeaveSubMenu()
      requires Valid() && |menuStack| > 0
      modifies this`menuStack, this`activeMenu, this`field54, this`menuLinesCount, this`hovered,
               this`screenTexts, {menuStack[|menuStack| - 1]}`field2C18, this`first, this`menuItemCount,
               this`hovered2, this`cursorPos
      ensures Valid() && LeftSubMenu()
    {
      ghost var below, c := RemoveText(RemoveText(screenTexts)), cursorPos;
      var top := PopMenu();
      Show(top);
      assert ShowsHovered(top, below, c) && SessionKept();
    }

    /** What enterSubMenu, leaveSubMenu and openMenu do after updating the
        stack: activate the menu, hover its first listed item and point the
        cursor at it. */
    method Show(m: BaseMenu)
      requires Staged() && m in allMenus
      modifies this`activeMenu, this`menuLinesCount, m`field2C18, this`first, this`field54,
               this`screenTexts, this`menuItemCount, this`hovered, this`hovered2, this`cursorPos
      ensures Valid() && ShowsHovered(m, old(screenTexts), old(cursorPos))
    {
      ActivateMenu(m);
      HoverFirst();
    }

    /** leaveSubMenu's first half: the top of the stack made active again with
        its saved item count, and the two newest texts removed. */
    method PopMenu() returns (top: BaseMenu)
      requires Valid() && |menuStack| > 0
      modifies this`menuStack, this`activeMenu, this`field54, this`menuLinesCount, this`hovered,
               this`screenTexts
      ensures top == old(menuStack[|menuStack| - 1]) && menuStack == old(menuStack[..|menuStack| - 1])
      ensures activeMenu == top && field54 == top.field2C18 && menuLinesCount == |top.header| && hovered == 1
      ensures screenTexts == RemoveText(RemoveText(old(screenTexts))) && Staged() && top in allMenus
    {
      top := menuStack[|menuStack| - 1];
      menuStack := menuStack[..|menuStack| - 1];
      activeMenu := top;
      field54 := top.field2C18;
      menuLinesCount := |top.header|;
      hovered := 1;
      screenTexts := RemoveText(screenTexts);
      screenTexts := RemoveText(screenTexts);
    }

    /** closeMenu. */
    method CloseMenu()
      requires Valid()
      modifies this`menuStack, this`screenTexts, this`gameState, this`cursorPos, this`isActive
      ensures Valid() && Closed()
    {
      while |menuStack| > 0
        invariant |menuStack| <= |old(menuStack)| && menuStack == old(menuStack)[..|menuStack|]
        invariant screenTexts == Drop(old(screenTexts), |old(menuStack)| - |menuStack|)
        decreases |menuStack|
      {
        DropStep(old(screenTexts), |old(menuStack)| - |menuStack|);
        screenTexts := RemoveText(screenTexts);
        menuStack := menuStack[..|menuStack| - 1];
      }
      DropStep(old(screenTexts), |old(menuStack)|);
      screenTexts := RemoveText(screenTexts);
      gameState := savedGameState;
      cursorPos := savedCursorPos;
      isActive := false;
    }

    /** enterSubMenuById. */
    method EnterSubMenuById(id: int)
      requires Valid() && activeMenu != null && id in menus
      modifies this`menuStack, this`activeMenu, this`menuLinesCount, {menus[id]}`field2C18,
               this`first, this`field54, this`screenTexts, this`menuItemCount,
               this`hovered, this`hovered2, this`cursorPos
      ensures Valid() && EnteredSubMenu(menus[id])
    {
      EnterSubMenu(menus[id]);
    }

    /** The menu leaveSubMenu would return to. */
    function StackTop(): set<BaseMenu>
      reads this
    {
      if |menuStack| > 0 then {menuStack[|menuStack| - 1]} else {}
    }

    /** leaveMenu: back to the menu below, or closed when there is none. */
    method LeaveMenu()
      requires Valid()
      modifies this`menuStack, this`activeMenu, this`field54, this`menuLinesCount, this`hovered,
               this`screenTexts, StackTop()`field2C18, this`first, this`menuItemCount,
               this`hovered2, this`cursorPos, this`gameState, this`isActive
      ensures Valid()
      ensures old(|menuStack|) > 0 ==> LeftSubMenu()
      ensures old(|menuStack|) == 0 ==> Closed()
    {
      if |menuStack| > 0 {
        LeaveSubMenu();
      } else {
        CloseMenu();
      }
    }

    /** openMenu, with the input cursor at `inputCursor`. */
    method OpenMenu(m: BaseMenu, inputCursor: Point)
      requires Valid() && m in allMenus
      modifies this`isActive, this`menuStack, this`savedCursorPos, this`savedGameState, this`gameState,
               this`baseTexts, this`activeMenu, this`menuLinesCount, m`field2C18, this`first,
               this`field54, this`screenTexts, this`menuItemCount, this`hovered, this`hovered2,
               this`cursorPos
      ensures Valid() && Opened(m, inputCursor)
    {
      ghost var below, c := screenTexts, cursorPos;
      BeginSession(inputCursor);
      Show(m);
      assert ShowsHovered(m, below, c) && CallerKept();
    }

    /** openMenu's first half: the system marked active with an empty stack,
        the cursor and the game state saved and the menu game state set. */
    method BeginSession(inputCursor: Point)
      requires Valid()
      modifies this`isActive, this`menuStack, this`savedCursorPos, this`savedGameState, this`gameState,
               this`baseTexts
      ensures isActive && menuStack == [] && savedCursorPos == inputCursor
      ensures savedGameState == old(gameState) && gameState == MenuGameState && baseTexts == |screenTexts|
      ensures Staged()
    {
      isActive := true;
      menuStack := [];
      savedCursorPos := inputCursor;
      savedGameState := gameState;
      gameState := MenuGameState;
      baseTexts := |screenTexts|;
    }

    /** selectMenuChoiceIndex. */
    method SelectMenuChoiceIndex(ci: nat)
      requires Valid() && (ci > 0 && menuChoiceOffset != null ==> ci <= |menuChoiceOffsets|)
      modifies Cell()`value, this`notified, this`menuCallerThreadId, this`menuStack, this`screenTexts,
               this`gameState, this`cursorPos, this`isActive
      ensures Valid() && Selected(ci)
    {
      if ci > 0 && menuChoiceOffset != null {
        menuChoiceOffset.value := menuChoiceOffsets[ci - 1];
      }
      notified := notified + [menuCallerThreadId];
      menuCallerThreadId := 0;
      CloseMenu();
    }

    /** MenuItem::executeAction: the four MenuAction execute methods.  Leaving
        and returning a choice also play a sound effect, which is not
        modelled. */
    method ExecuteAction(a: MenuAction)
      requires Valid() && activeMenu != null && ActionOk(a)
      modifies this`menuStack, this`activeMenu, this`menuLinesCount, this`first, this`field54,
               this`screenTexts, this`menuItemCount, this`hovered, this`hovered2, this`cursorPos,
               this`gameState, this`isActive, this`notified, this`menuCallerThreadId,
               this`queryConfirmationChoiceIndex, Targets(a)`field2C18, Cell()`value
      ensures Valid() && Executed(a)
    {
      match a
      case EnterMenu(id) =>
        EnterSubMenuById(id);
      case LeaveMenu =>
        LeaveMenu();
      case ReturnChoice(ci) =>
        SelectMenuChoiceIndex(ci);
      case EnterQueryMenu(id, c) =>
        queryConfirmationChoiceIndex := c;
        EnterSubMenuById(id);
    }

    /** The menu whose saved item count a click on item `i` may overwrite. */
    function ClickTargets(i: nat): (r: set<BaseMenu>)
      reads this
      requires TableOk() && StackOk() && activeMenu != null && i <= |activeMenu.items|
      ensures r <= allMenus
    {
      if i == 0 then {}
      else
        assert Ready(activeMenu);
        Targets(activeMenu.items[i - 1].action)
    }

    /** handleClick: item 0 is no item and only plays a sound effect (not
        modelled); item `i` runs the action of the active menu's `i`-th item. */
    method HandleClick(i: nat)
      requires Valid() && activeMenu != null && i <= |activeMenu.items|
      modifies this`menuStack, this`activeMenu, this`menuLinesCount, this`first, this`field54,
               this`screenTexts, this`menuItemCount, this`hovered, this`hovered2, this`cursorPos,
               this`gameState, this`isActive, this`notified, this`menuCallerThreadId,
               this`queryConfirmationChoiceIndex, ClickTargets(i)`field2C18, Cell()`value
      ensures Valid()
      ensures i == 0 ==> unchanged(this) && CellValue() == old(CellValue())
      ensures i > 0 ==> Ready(old(activeMenu)) && Executed(old(activeMenu.items[i - 1].action))
    {
      if i == 0 {
        return;
      }
      assert Ready(activeMenu);
      ExecuteAction(activeMenu.items[i - 1].action);
    }

    /** The timeout fields as one value. */
    function TimerState(): Timer
      reads this`isTimeOutEnabled, this`isTimeOutReached, this`timeOutDuration, this`timeOutMenuChoiceIndex,
            this`timeOutStartTime, this`timeOutEndTime
    {
      Timer(isTimeOutEnabled, isTimeOutReached, timeOutDuration, timeOutMenuChoiceIndex,
            timeOutStartTime, timeOutEndTime)
    }

    /** What selectMenuChoiceIndex may change is untouched. */
    twostate predicate MenuKept()
      reads this, Cell()
    {
      menuStack == old(menuStack) && screenTexts == old(screenTexts) && gameState == old(gameState) &&
      cursorPos == old(cursorPos) && isActive == old(isActive) && CallerKept()
    }

    /** setTimeOutDuration, at time `now`. */
    method SetTimeOutDuration(duration: U32, choice: nat, now: U32)
      requires Valid() && (duration != 0 ==> choice <= choiceCount)
      modifies this`isTimeOutEnabled, this`isTimeOutReached, this`timeOutDuration, this`timeOutMenuChoiceIndex,
               this`timeOutStartTime, this`timeOutEndTime
      ensures Valid() && TimerState() == SetDuration(old(TimerState()), duration, choice, now)
    {
      if duration > 0 {
        isTimeOutEnabled := true;
        isTimeOutReached := false;
        timeOutDuration := duration;
        timeOutMenuChoiceIndex := choice;
        timeOutStartTime := now;
        timeOutEndTime := EndTime(duration, timeOutStartTime);
      } else {
        isTimeOutEnabled := false;
      }
    }

    /** updateTimeOut's bookkeeping: the timer stepped, and whether the
        timeout is due. */
    method TickTimeOut(reset: bool, now: U32, expired: (U32, U32) -> bool) returns (fire: bool)
      modifies this`isTimeOutEnabled, this`isTimeOutReached, this`timeOutStartTime, this`timeOutEndTime
      ensures TimerState() == Tick(old(TimerState()), |menuStack| == 0, reset, now, expired).0
      ensures fire == Tick(old(TimerState()), |menuStack| == 0, reset, now, expired).1
    {
      fire := false;
      if !isTimeOutEnabled {
        return;
      }
      var restart := reset;
      if |menuStack| == 0 {
        if isTimeOutReached {
          restart := true;
          isTimeOutReached := false;
        }
      } else if !isTimeOutReached {
        isTimeOutReached := true;
      }
      if !isTimeOutReached {
        if restart {
          timeOutStartTime := now;
          timeOutEndTime := EndTime(timeOutDuration, timeOutStartTime);
        } else if expired(timeOutStartTime, timeOutEndTime) {
          isTimeOutEnabled := false;
          fire := true;
        }
      }
    }

    /** updateTimeOut, at time `now` with the timer's expiry test `expired`:
        the timer steps as Tick says and, when it fires, returns its choice. */
    method UpdateTimeOut(reset: bool, now: U32, expired: (U32, U32) -> bool)
      requires Valid()
      modifies this`isTimeOutEnabled, this`isTimeOutReached, this`timeOutStartTime, this`timeOutEndTime,
               Cell()`value, this`notified, this`menuCallerThreadId, this`menuStack, this`screenTexts,
               this`gameState, this`cursorPos, this`isActive
      ensures Valid()
      ensures TimerState() == Tick(old(TimerState()), old(|menuStack|) == 0, reset, now, expired).0
      ensures Tick(old(TimerState()), old(|menuStack|) == 0, reset, now, expired).1 ==>
                old(isTimeOutEnabled) && Selected(old(timeOutMenuChoiceIndex))
      ensures !Tick(old(TimerState()), old(|menuStack|) == 0, reset, now, expired).1 ==> MenuKept()
    {
      var fire := TickTimeOut(reset, now, expired);
      if fire {
        SelectMenuChoiceIndex(timeOutMenuChoiceIndex);
      }
    }

    /** update()'s hover logic for the pointer at `mouse`: the cursor follows
        the pointer; a newly hit item becomes both hovered items, losing every
        item clears the hovered one; either change asks for a timeout restart. */
    method HoverStep(mouse: Point) returns (reset: bool)
      requires activeMenu != null && |screenTexts| > 0 && TextBox().Valid()
      modifies this`cursorPos, this`hovered, this`hovered2
      ensures cursorPos == mouse && hovered == HoveredAt(TextBox(), ScrollWindow(), mouse)
      ensures IndexAtPoint(TextBox(), ScrollWindow(), mouse).Some? ==>
                var i := IndexAtPoint(TextBox(), ScrollWindow(), mouse).value;
                hovered == i && (reset <==> i != old(hovered)) &&
                hovered2 == (if i != old(hovered) then i else old(hovered2))
      ensures IndexAtPoint(TextBox(), ScrollWindow(), mouse).None? ==>
                hovered == 0 && hovered2 == old(hovered2) && (reset <==> old(hovered) != 0)
    {
      cursorPos := mouse;
      reset := false;
      var hit := IndexAtPoint(TextBox(), ScrollWindow(), mouse);
      if hit.Some? {
        if hit.value != hovered {
          hovered := hit.value;
          hovered2 := hit.value;
          reset := true;
        }
      } else if hovered != 0 {
        hovered := 0;
        reset := true;
      }
    }

    /** update(): the pointer at `mouse`, whether new input events arrived,
        whether a left click or an abort was polled, the time and the timer's
        expiry test. */
    method Update(mouse: Point, newEvents: bool, leftClick: bool, abort: bool, now: U32,
                  expired: (U32, U32) -> bool)
      requires Valid() && isActive
      modifies this`menuStack, this`activeMenu, this`menuLinesCount, this`first, this`field54,
               this`screenTexts, this`menuItemCount, this`hovered, this`hovered2, this`cursorPos,
               this`gameState, this`isActive, this`notified, this`menuCallerThreadId,
               this`queryConfirmationChoiceIndex, allMenus`field2C18, Cell()`value,
               this`isTimeOutEnabled, this`isTimeOutReached, this`timeOutStartTime, this`timeOutEndTime
      ensures Valid()
    {
      assert fontHeight(activeMenu.fontId) > 0;
      var reset := HoverStep(mouse);
      if newEvents {
        reset := true;
      }
      if leftClick {
        HandleClick(hovered);
      } else if abort && activeMenu.defaultMenuItemIndex != 0 {
        assert Ready(activeMenu);
        HandleClick(activeMenu.defaultMenuItemIndex);
      }
      UpdateTimeOut(reset, now, expired);
    }
  }
}
