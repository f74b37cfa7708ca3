/** Printing and scrolling as the program does them, field by field over stored rows, and
    exactly what the value functions of the screen say. */
module VtPrinter {
  import opened Prelude
  import opened Sgr
  import opened VtCells
  import opened VtRows
  import opened VtStore
  import V = VtScreen

  /** A new line is a scroll, if the cursor would leave the region, and then a move. */
  lemma NextLineIs(s: V.Screen)
    ensures V.NextLine(s) ==
            if s.cur.y + 1 > s.margins.bottom then V.ScrollUpOnce(s).(cur := V.Cursor(s.margins.bottom, V.WrapColumn(s), false))
            else s.(cur := V.Cursor(s.cur.y + 1, V.WrapColumn(s), false))
  {
    V.ScrollIgnoresCursor(s, V.Cursor(s.cur.y + 1, V.WrapColumn(s), false));
    V.ScrollFrame(s);
  }

  /** Inking and advancing, with the cursor kept on the screen in between. */
  lemma InkIs(s: V.Screen, rune: nat, width: nat)
    ensures
      var t := V.InkFirst(s, rune);
      var u := V.Spacer(t);
      V.Advance(V.Ink(s, rune, width)) ==
      if width == 2 then u.(cur := V.CursorPast(u, u.cur.x + 1)) else t.(cur := V.CursorPast(t, t.cur.x))
  {}

  /** The screens on the way, one step apart. */
  ghost function ScrollUpTrail(s: V.Screen, n: nat): (trail: seq<V.Screen>)
    ensures |trail| == n + 1 && trail[0] == s && trail[n] == V.ScrollUpBy(s, n)
    ensures forall i: nat :: i < n ==> trail[i + 1] == V.ScrollUpOnce(trail[i])
    decreases n
  {
    if n == 0 then [s] else [s] + ScrollUpTrail(V.ScrollUpOnce(s), n - 1)
  }

  /** The screens on the way, one step apart. */
  ghost function ScrollDownTrail(s: V.Screen, n: nat): (trail: seq<V.Screen>)
    ensures |trail| == n + 1 && trail[0] == s && trail[n] == V.ScrollDownBy(s, n)
    ensures forall i: nat :: i < n ==> trail[i + 1] == V.ScrollDownOnce(trail[i])
    decreases n
  {
    if n == 0 then [s] else [s] + ScrollDownTrail(V.ScrollDownOnce(s), n - 1)
  }

  lemma BackTabsStep(s: V.Screen, n: nat)
    requires n > 0 && V.PrevStop(s) >= 0
    ensures
      var t := s.(cur := s.cur.(x := V.PrevStop(s)));
      V.BackTabs(s, n) == if V.PrevStop(s) > 0 then V.BackTabs(t, n - 1) else t
  {}

  lemma PrevSetNonNegative(t: seq<bool>, i: int)
    ensures V.PrevSet(t, i) >= 0
    decreases i
  {}

  lemma PrevStopNonNegative(s: V.Screen)
    ensures V.PrevStop(s) >= 0
  {
    if s.tabs.Some? { PrevSetNonNegative(s.tabs.value, s.cur.x - 1); }
  }

  class TerminalScreen {
    const rows: RowStore
    var cur: V.Cursor
    var margins: V.Margins
    var pen: V.Pen
    var modes: V.Modes
    var charsets: V.Charsets
    var saves: V.Saves
    var tabs: Option<seq<bool>>
    var history: V.History
    var savedAt: (int, int)
    var savedRegion: (int, int)
    var savedStyle: Style
    var lastRune: nat
    var lastStyle: Style

    constructor (h: nat, w: nat)
      requires h >= 1 && w >= 1
      ensures Valid() && Model() == V.New(h, w) && fresh(rows) && fresh(rows.Owned())
    {
      rows := new RowStore(h, w);
      cur, margins, pen, modes := V.Cursor(0, 0, false), V.FullMargins(h, w), V.PLAIN_PEN, V.PLAIN_MODES;
      charsets, saves, tabs, history := V.PLAIN_CHARSETS, V.Saves(None, None, map[]), None, V.History([], [], false);
      savedAt, savedRegion, savedStyle, lastRune, lastStyle := (0, 0), (0, 0), PLAIN, 0, PLAIN;
    }

    ghost function AltModel(): V.Alt
      reads this`savedAt, this`savedRegion, this`savedStyle
      reads rows`inAlt, rows`saved, rows`savedWrapped, rows`stash, rows.Behind()
    {
      V.Alt(rows.inAlt,
            if rows.inAlt then
              Some(V.Main(rows.Hidden(), rows.savedWrapped, savedAt.0, savedAt.1, savedRegion.0, savedRegion.1, savedStyle))
            else None,
            if rows.inAlt || rows.stash == [] then None else Some(rows.Hidden()))
    }

    ghost function Model(): V.Screen
      reads this, rows, rows.cells, rows.Behind()
    {
      V.Screen(rows.height, rows.width, Contents(rows.cells), rows.wrapped, cur, margins, pen, modes, charsets, saves,
               AltModel(), tabs, history, lastRune, lastStyle)
    }

    /** Stored rows are sound, and cursor and margins lie on the screen. */
    ghost predicate Valid()
      reads this`cur, this`margins, rows
    {
      && rows.Valid() && 0 <= cur.y < rows.height && 0 <= cur.x < rows.width
      && 0 <= margins.top <= margins.bottom < rows.height && 0 <= margins.left <= margins.right < rows.width
    }

    function LeftBound(): int reads this`margins { if margins.lr then margins.left else 0 }

    function RightBound(): int reads this`margins, rows`width { if margins.lr then margins.right else rows.width - 1 }

    predicate WithinH(x: int) reads this`margins, rows`width { LeftBound() <= x <= RightBound() }

    predicate FullWidth() reads this`margins, rows`width { LeftBound() == 0 && RightBound() == rows.width - 1 }

    method DrainTopRow()
      requires Valid()
      modifies this`history
      ensures Model() == V.Drain(old(Model()))
    {
      var continues := |rows.wrapped| > 1 && rows.wrapped[1];
      var tail := history.tail;
      if !rows.inAlt {
        tail := if continues then V.Last(tail + [rows.cells[0][..]], V.TAIL_ROWS) else [];
      }
      history := V.History(history.drained + [V.Drained(rows.cells[0][..], continues)], tail, history.cleared);
    }

    method ScrollRegion()
      requires Valid()
      modifies rows`cells, rows`wrapped, rows`repr, rows.repr
      ensures Valid() && fresh(rows.repr - old(rows.repr)) && Model() == V.ScrollFrom(old(Model()), margins.top, 1)
    {
      ghost var alt := AltModel();
      rows.ScrollStep(Box(margins.top, LeftBound(), margins.bottom, RightBound()), true, pen.style.bg);
      assert AltModel() == alt;
    }

    method ScrollUpOnce()
      requires Valid()
      modifies this`history, rows`cells, rows`wrapped, rows`repr, rows.repr
      ensures Valid() && fresh(rows.repr - old(rows.repr)) && Model() == V.ScrollUpOnce(old(Model()))
    {
      if FullWidth() && margins.top == 0 && margins.bottom == rows.height - 1 {
        DrainTopRow();
      }
      ScrollRegion();
    }

    method LineDown()
      requires Valid()
      modifies this`history, this`cur, rows`cells, rows`wrapped, rows`repr, rows.repr
      ensures Valid() && fresh(rows.repr - old(rows.repr)) && Model() == V.LineDown(old(Model()))
    {
      if cur.y == margins.bottom {
        if WithinH(cur.x) { ScrollUpOnce(); }
      } else if cur.y < rows.height - 1 {
        cur := cur.(y := cur.y + 1);
      }
    }

    method ScrollThen(c: V.Cursor)
      requires Valid() && 0 <= c.y < rows.height && 0 <= c.x < rows.width
      modifies this`history, this`cur, rows`cells, rows`wrapped, rows`repr, rows.repr
      ensures Valid() && fresh(rows.repr - old(rows.repr)) && Model() == V.ScrollUpOnce(old(Model())).(cur := c)
    {
      ScrollUpOnce();
      cur := c;
    }

    /** To the start of the next line, the region scrolling if the cursor would leave it. */
    method NextLine()
      requires Valid()
      modifies this`history, this`cur, rows`cells, rows`wrapped, rows`repr, rows.repr
      ensures Valid() && fresh(rows.repr - old(rows.repr)) && Model() == V.NextLine(old(Model()))
    {
      ghost var s := Model();
      var x := if WithinH(cur.x) then LeftBound() else 0;
      if cur.y + 1 > margins.bottom {
        ScrollThen(V.Cursor(margins.bottom, x, false));
      } else {
        cur := V.Cursor(cur.y + 1, x, false);
      }
      NextLineIs(s);
    }

    method MarkWrapContinuation()
      requires Valid()
      modifies rows`wrapped
      ensures Valid() && Model() == V.MarkContinuation(old(Model()))
    {
      if FullWidth() { rows.wrapped := rows.wrapped[cur.y := true]; }
    }

    method WrapLine()
      requires Valid()
      modifies this`history, this`cur, rows`cells, rows`wrapped, rows`repr, rows.repr
      ensures Valid() && fresh(rows.repr - old(rows.repr)) && Model() == V.WrapLine(old(Model()))
    {
      NextLine();
      MarkWrapContinuation();
    }

    method Write(x: nat, c: Cell)
      requires Valid() && x < rows.width
      modifies rows.repr
      ensures Valid() && Model() == V.Write(old(Model()), x, c)
    {
      rows.PutCell(cur.y, x, c);
      assert AltModel() == old(AltModel());
    }

    /** The cells of a box moved left `n` columns (right, if negative), on the pen's background. */
    method MoveColumns(b: Box, n: int)
      requires Valid() && Fits(b, rows.height, rows.width) && n != 0
      modifies rows.repr
      ensures Valid()
      ensures Model() == old(Model()).(cells := MoveLeft(old(Contents(rows.cells)), rows.height, rows.width, b, n, BlankOn(pen.style.bg)))
    {
      rows.ShiftColumns(b, n, pen.style.bg);
      assert AltModel() == old(AltModel());
    }

    method InsertChars(n: int)
      requires Valid() && n > 0
      modifies rows.repr
      ensures Valid() && Model() == V.InsertChars(old(Model()), n)
    {
      if WithinH(cur.x) { MoveColumns(Box(cur.y, cur.x, cur.y, RightBound()), -n); }
    }

    function WrapEdge(x: int): int reads this`margins, rows`width { if WithinH(x) then RightBound() else rows.width - 1 }

    function InkCell(ch: nat): Cell
      reads this`pen
    {
      Cell(ch, pen.style, pen.link, pen.decProtected, pen.isoProtected)
    }

    /** A wide glyph with one cell left before the edge leaves a plain blank there. */
    method WrapWide()
      requires Valid()
      modifies this`history, this`cur, rows`cells, rows`wrapped, rows`repr, rows.repr
      ensures Valid() && fresh(rows.repr - old(rows.repr)) && Model() == V.WrapWide(old(Model()))
    {
      Write(cur.x, Cell(SPACE, pen.style, [], false, false));
      WrapLine();
    }

    method WrapIfPending()
      requires Valid()
      modifies this`history, this`cur, rows`cells, rows`wrapped, rows`repr, rows.repr
      ensures Valid() && fresh(rows.repr - old(rows.repr))
      ensures Model() == V.WrapIfPending(old(Model()))
    {
      if cur.pending { WrapLine(); }
    }

    method WrapIfTooWide(width: nat)
      requires Valid()
      modifies this`history, this`cur, rows`cells, rows`wrapped, rows`repr, rows.repr
      ensures Valid() && fresh(rows.repr - old(rows.repr))
      ensures Model() == V.WrapIfTooWide(old(Model()), width)
    {
      if width == 2 && cur.x >= WrapEdge(cur.x) && modes.autoWrap { WrapWide(); }
    }

    method PutWrapped(width: nat)
      requires Valid()
      modifies this`history, this`cur, rows`cells, rows`wrapped, rows`repr, rows.repr
      ensures Valid() && fresh(rows.repr - old(rows.repr)) && Model() == V.PutWrapped(old(Model()), width)
    {
      WrapIfPending();
      WrapIfTooWide(width);
    }

    method InkFirst(rune: nat)
      requires Valid()
      modifies this`lastRune, this`lastStyle, rows.repr
      ensures Valid() && Model() == V.InkFirst(old(Model()), rune)
    {
      Write(cur.x, InkCell(rune));
      lastRune, lastStyle := rune, pen.style;
    }

    method Spacer()
      requires Valid()
      modifies rows.repr
      ensures Valid() && Model() == V.Spacer(old(Model()))
    {
      if cur.x + 1 < rows.width { Write(cur.x + 1, InkCell(0)); }
    }

    method AdvanceFrom(x: nat)
      requires Valid() && x <= rows.width
      modifies this`cur
      ensures Valid() && Model() == old(Model()).(cur := V.CursorPast(old(Model()), x))
    {
      if x >= rows.width {
        cur := V.Cursor(cur.y, rows.width - 1, modes.autoWrap);
      } else if x >= WrapEdge(x) {
        cur := V.Cursor(cur.y, WrapEdge(x), modes.autoWrap);
      } else {
        cur := cur.(x := x + 1);
      }
    }

    method InkAndAdvance(rune: nat, width: nat)
      requires Valid()
      modifies this`lastRune, this`lastStyle, this`cur, rows.repr
      ensures Valid() && Model() == V.Advance(V.Ink(old(Model()), rune, width))
    {
      ghost var s := Model();
      InkIs(s, rune, width);
      InkFirst(rune);
      if width == 2 {
        Spacer();
        AdvanceFrom(cur.x + 1);
      } else {
        AdvanceFrom(cur.x);
      }
    }

    /** One printable rune. */
    method Put(rune: nat, width: nat)
      requires Valid()
      modifies this`history, this`cur, this`lastRune, this`lastStyle, rows`cells, rows`wrapped, rows`repr, rows.repr
      ensures Valid() && fresh(rows.repr - old(rows.repr)) && Model() == V.PutGlyph(old(Model()), rune, width)
    {
      if width == 0 { return; }
      PutWrapped(width);
      if modes.insert { InsertChars(width); }
      InkAndAdvance(rune, width);
    }

    // --- switching screens, resizing -----------------------------------------------------

    lemma AltStartIs(mode: nat)
      requires rows.Valid() && !rows.inAlt
      ensures V.AltBuffer(Model(), mode) == AltStart(rows.Hidden(), rows.height, rows.width, mode == 1049)
    {
      assert |rows.stash| == |rows.Hidden()|;
    }

    method NoteMain()
      modifies this`savedAt, this`savedRegion, this`savedStyle
      ensures savedAt == (cur.y, cur.x) && savedRegion == (margins.top, margins.bottom) && savedStyle == pen.style
    {
      savedAt, savedStyle, savedRegion := (cur.y, cur.x), pen.style, (margins.top, margins.bottom);
    }

    method SwitchRows(clear: bool)
      requires Valid() && !rows.inAlt
      requires savedAt == (cur.y, cur.x) && savedRegion == (margins.top, margins.bottom) && savedStyle == pen.style
      modifies rows
      ensures rows.Valid() && rows.height == old(rows.height) && rows.width == old(rows.width)
      ensures fresh(rows.Owned() - old(rows.Owned()))
      ensures AltModel() == V.Alt(true, Some(V.SavedMain(old(Model()))), None)
      ensures Contents(rows.cells) == AltStart(old(rows.Hidden()), rows.height, rows.width, clear)
      ensures rows.wrapped == ClearFlags(rows.height)
    {
      rows.EnterAlt(clear);
    }

    /** Everything about the main screen is put aside, and alternate rows shown. */
    method PutMainAside(mode: nat)
      requires Valid() && !rows.inAlt
      modifies this`savedAt, this`savedRegion, this`savedStyle, rows
      ensures Valid() && fresh(rows.Owned() - old(rows.Owned())) && Model() == V.PutAside(old(Model()), mode)
    {
      AltStartIs(mode);
      NoteMain();
      SwitchRows(mode == 1049);
    }

    method SetAltPen(mode: nat)
      requires Valid()
      modifies this`cur, this`margins, this`pen
      ensures margins == old(margins).(top := 0, bottom := rows.height - 1)
      ensures cur == if mode == 1049 then old(cur).(y := 0, x := 0) else old(cur)
      ensures pen == old(pen).(link := [], style := if mode == 1049 then PLAIN else old(pen.style))
    {
      pen := pen.(link := []);
      margins := margins.(top := 0, bottom := rows.height - 1);
      if mode == 1049 {
        cur := cur.(y := 0, x := 0);
        pen := pen.(style := PLAIN);
      }
    }

    method EnterAltScreen(mode: nat)
      requires Valid()
      modifies this`cur, this`margins, this`pen, this`savedAt, this`savedRegion, this`savedStyle, rows
      ensures Valid() && fresh(rows.Owned() - old(rows.Owned())) && Model() == V.EnterAlt(old(Model()), mode)
    {
      if rows.inAlt { return; }
      PutMainAside(mode);
      ghost var aside := Model();
      SetAltPen(mode);
      assert Model() == aside.(cur := cur, margins := margins, pen := pen);
    }

    method BringMainBack(mode: nat)
      requires Valid() && rows.inAlt
      modifies rows
      ensures Valid() && fresh(rows.Owned() - old(rows.Owned()))
      ensures Model() == V.BringBack(old(Model()), old(Model()).alt.saved.value, mode)
    {
      ghost var g := Contents(rows.cells);
      rows.ExitAlt(mode == 47);
      assert |rows.stash| == |rows.Hidden()|;
      assert mode == 47 ==> |g| == rows.height;
    }

    /** The saved region comes back with only its bottom clamped. */
    method SetMainPen(mode: nat)
      requires Valid()
      modifies this`cur, this`margins, this`pen
      ensures margins == old(margins).(top := savedRegion.0, bottom := Min(savedRegion.1, rows.height - 1))
      ensures cur == old(cur).(y := Min(if mode == 1049 then savedAt.0 else old(cur.y), rows.height - 1),
                               x := Min(if mode == 1049 then savedAt.1 else old(cur.x), rows.width - 1))
      ensures pen == old(pen).(link := [], style := if mode == 1049 then savedStyle else old(pen.style))
    {
      pen := pen.(link := []);
      margins := margins.(top := savedRegion.0, bottom := savedRegion.1);
      if mode == 1049 {
        cur := cur.(y := savedAt.0, x := savedAt.1);
        pen := pen.(style := savedStyle);
      }
      if cur.y >= rows.height { cur := cur.(y := rows.height - 1); }
      if cur.x >= rows.width { cur := cur.(x := rows.width - 1); }
      if margins.bottom >= rows.height { margins := margins.(bottom := rows.height - 1); }
    }

    method ExitAltScreen(mode: nat)
      requires Valid()
      modifies this`cur, this`margins, this`pen, rows
      ensures rows.Valid() && fresh(rows.Owned() - old(rows.Owned())) && Model() == V.ExitAlt(old(Model()), mode)
    {
      if !rows.inAlt { return; }
      ghost var m := Model().alt.saved.value;
      BringMainBack(mode);
      RestoreMainPen(m, mode);
    }

    method RestoreMainPen(ghost m: V.Main, mode: nat)
      requires Valid() && (m.y, m.x) == savedAt && (m.top, m.bottom) == savedRegion && m.style == savedStyle
      modifies this`cur, this`margins, this`pen
      ensures rows.Valid() && Model() == V.MainPen(old(Model()), m, mode)
    {
      ghost var back := Model();
      SetMainPen(mode);
      assert Model() == back.(cur := cur, margins := margins, pen := pen);
    }

    method InsertLines(n: nat)
      requires Valid()
      modifies this`cur, rows`cells, rows`wrapped, rows`repr, rows.repr
      ensures Valid() && fresh(rows.repr - old(rows.repr)) && Model() == V.InsertLines(old(Model()), n)
    {
      if margins.top <= cur.y <= margins.bottom && WithinH(cur.x) { ShiftLines(n, false); }
    }

    method DeleteLines(n: nat)
      requires Valid()
      modifies this`cur, rows`cells, rows`wrapped, rows`repr, rows.repr
      ensures Valid() && fresh(rows.repr - old(rows.repr)) && Model() == V.DeleteLines(old(Model()), n)
    {
      if margins.top <= cur.y <= margins.bottom && WithinH(cur.x) { ShiftLines(n, true); }
    }

    /** The region from the cursor's row down, line by line as many times as asked. */
    method ScrollLines(n: nat, up: bool)
      requires Valid() && margins.top <= cur.y <= margins.bottom
      modifies rows`cells, rows`wrapped, rows`repr, rows.repr
      ensures Valid() && fresh(rows.repr - old(rows.repr))
      ensures Model() == V.ScrollFrom(old(Model()), cur.y, Signed(up, n))
    {
      ghost var alt := AltModel();
      rows.Scroll(Box(cur.y, LeftBound(), margins.bottom, RightBound()), n, up, pen.style.bg);
      assert AltModel() == alt;
    }

    method ShiftLines(n: nat, up: bool)
      requires Valid() && margins.top <= cur.y <= margins.bottom
      modifies this`cur, rows`cells, rows`wrapped, rows`repr, rows.repr
      ensures Valid() && fresh(rows.repr - old(rows.repr))
      ensures Model() == V.ScrollFrom(old(Model()), old(cur.y), Signed(up, n)).(cur := V.Cursor(old(cur.y), LeftBound(), false))
    {
      ScrollLines(n, up);
      cur := V.Cursor(cur.y, LeftBound(), false);
    }

    method ResizeTabStops(cols: nat)
      requires cols >= 1
      modifies this`tabs
      ensures tabs == V.ResizedStops(old(tabs), rows.width, cols)
    {
      if cols == rows.width || tabs.None? { return; }
      var stops := tabs.value;
      var t: seq<bool> := [];
      for i := 0 to cols
        invariant |t| == i
        invariant forall k :: 0 <= k < i ==> t[k] == if k < |stops| then stops[k] else k > 0 && k % 8 == 0
      {
        t := t + [if i < |stops| then stops[i] else i > 0 && i % 8 == 0];
      }
      ghost var e := V.ResizedStops(tabs, rows.width, cols).value;
      assert t == e;
      tabs := Some(t);
    }

    // --- cursor motion ---------------------------------------------------------------------

    method ClampCursor()
      requires rows.height >= 1 && rows.width >= 1
      modifies this`cur
      ensures Model() == V.Place(old(Model()), old(cur.y), old(cur.x))
    {
      cur := cur.(x := Min(Max(cur.x, 0), rows.width - 1), y := Min(Max(cur.y, 0), rows.height - 1));
    }

    method CursorUp(n: nat)
      requires Valid()
      modifies this`cur
      ensures Valid() && Model() == V.Up(old(Model()), n)
    {
      var low := 0;
      if cur.y >= margins.top { low := margins.top; }
      cur := cur.(y := Max(cur.y - n, low));
      ClampCursor();
    }

    method CursorDown(n: nat)
      requires Valid()
      modifies this`cur
      ensures Valid() && Model() == V.Down(old(Model()), n)
    {
      var high := rows.height - 1;
      if cur.y <= margins.bottom { high := margins.bottom; }
      cur := cur.(y := Min(cur.y + n, high));
      ClampCursor();
    }

    method CursorRight(n: nat)
      requires Valid()
      modifies this`cur
      ensures Valid() && Model() == V.Right(old(Model()), n)
    {
      var high := rows.width - 1;
      if cur.x <= RightBound() { high := RightBound(); }
      cur := cur.(x := Min(cur.x + n, high));
      ClampCursor();
    }

    /** Reverse wrap goes round: past the left margin to the line above, past the top
        margin to the bottom one. */
    method Backspace()
      requires Valid()
      modifies this`cur
      ensures Valid() && Model() == V.Backspace(old(Model()))
    {
      ghost var s := Model();
      var reverse := modes.reverseWrap && modes.autoWrap;
      var left := LeftBound();
      var at := cur.(pending := false);
      if cur.pending && reverse {
      } else if at.x > left {
        at := at.(x := at.x - 1);
      } else if reverse && at.y > margins.top {
        at := at.(y := at.y - 1, x := RightBound());
      } else if reverse {
        at := at.(y := margins.bottom, x := RightBound());
      } else if 0 < at.x < left {
        at := at.(x := at.x - 1);
      }
      cur := at;
      assert Model() == s.(cur := at);
    }

    method Backspaces(n: nat)
      requires Valid()
      modifies this`cur
      ensures Valid() && Model() == V.Backspaces(old(Model()), n)
    {
      for i := 0 to n
        invariant Valid() && V.Backspaces(Model(), n - i) == V.Backspaces(old(Model()), n)
      {
        Backspace();
      }
    }

    method CursorLeft(n: nat)
      requires Valid()
      modifies this`cur
      ensures Valid() && Model() == V.Left(old(Model()), n)
    {
      var steps := Max(n, 1);
      if modes.reverseWrap && modes.autoWrap {
        Backspaces(steps);
      } else {
        var low := 0;
        if cur.x >= LeftBound() { low := LeftBound(); }
        cur := cur.(x := Max(cur.x - steps, low));
        ClampCursor();
      }
    }

    function OriginRow(y: int): int
      reads this`modes, this`margins, rows`height
    {
      if modes.origin then Min(Max(y, 0) + margins.top, margins.bottom) else Min(Max(y, 0), rows.height - 1)
    }

    function OriginCol(x: int): int
      reads this`modes, this`margins, rows`width
    {
      if modes.origin then Min(Max(x, 0) + LeftBound(), RightBound()) else Min(Max(x, 0), rows.width - 1)
    }

    method CursorPosition(y: int, x: int)
      requires Valid()
      modifies this`cur
      ensures Valid() && Model() == V.MoveTo(old(Model()), y, x)
    {
      cur := cur.(y := OriginRow(y), x := OriginCol(x));
    }

    method Settle()
      requires Valid()
      modifies this`cur
      ensures Valid() && Model() == old(Model()).(cur := old(cur).(pending := false))
    {
      cur := cur.(pending := false);
    }

    method CarriageReturn()
      requires Valid()
      modifies this`cur
      ensures Valid() && Model() == V.CarriageReturn(old(Model()))
    {
      cur := cur.(x := if cur.x >= LeftBound() then LeftBound() else 0);
    }

    method ToLeft()
      requires Valid()
      modifies this`cur
      ensures Valid() && Model() == V.ToLeft(old(Model()))
    {
      cur := cur.(x := LeftBound());
    }

    method ToColumn(x: int)
      requires Valid()
      modifies this`cur
      ensures Valid() && Model() == V.ToColumn(old(Model()), x)
    {
      cur := cur.(x := OriginCol(x));
    }

    method ToRow(y: int)
      requires Valid()
      modifies this`cur
      ensures Valid() && Model() == old(Model()).(cur := old(cur).(y := V.OriginRow(old(Model()), y)))
    {
      cur := cur.(y := OriginRow(y));
    }

    /** A relative move along the row, unaware of margins. */
    method Along(n: int)
      requires Valid()
      modifies this`cur
      ensures Valid() && Model() == V.Place(old(Model()), old(cur.y), old(cur.x) + n)
    {
      cur := cur.(x := cur.x + n);
      ClampCursor();
    }

    /** Up a line, the region scrolling down if the cursor is on its first row. */
    method ReverseIndex()
      requires Valid()
      modifies this`cur, rows`cells, rows`wrapped, rows`repr, rows.repr
      ensures Valid() && fresh(rows.repr - old(rows.repr)) && Model() == V.ReverseIndex(old(Model()))
    {
      Settle();
      if cur.y == margins.top {
        if WithinH(cur.x) { ScrollDownOnce(); }
      } else if cur.y > 0 {
        cur := cur.(y := cur.y - 1);
      }
    }

    method BackIndex()
      requires Valid()
      modifies this`cur, rows.repr
      ensures Valid() && Model() == V.BackIndex(old(Model()))
    {
      Settle();
      if cur.x == LeftBound() {
        ScrollColumns(-1);
      } else if cur.x > 0 {
        cur := cur.(x := cur.x - 1);
      }
    }

    method ForwardIndex()
      requires Valid()
      modifies this`cur, rows.repr
      ensures Valid() && Model() == V.ForwardIndex(old(Model()))
    {
      Settle();
      if cur.x == RightBound() {
        ScrollColumns(1);
      } else if cur.x < rows.width - 1 {
        cur := cur.(x := cur.x + 1);
      }
    }

    // --- tab stops -----------------------------------------------------------------------------

    ghost predicate StopsFit()
      reads this`tabs, rows`width
    {
      tabs.Some? ==> |tabs.value| == rows.width
    }

    /** The first set stop after the cursor, or the width. */
    method NextTabStop() returns (col: int)
      requires Valid()
      requires StopsFit()
      ensures col == V.NextStop(Model()) && col > cur.x
    {
      if tabs.None? { return (cur.x / 8 + 1) * 8; }
      col := cur.x + 1;
      while col < rows.width
        invariant cur.x < col <= rows.width
        invariant V.NextSet(tabs.value, col, rows.width) == V.NextStop(Model())
      {
        if tabs.value[col] { return; }
        col := col + 1;
      }
    }

    method PrevTabStop() returns (col: int)
      requires Valid()
      requires StopsFit()
      ensures col == V.PrevStop(Model()) && 0 <= col <= cur.x
    {
      if tabs.None? { return Max((cur.x - 1) / 8 * 8, 0); }
      col := cur.x - 1;
      while col >= 0
        invariant -1 <= col < cur.x
        invariant V.PrevSet(tabs.value, col) == V.PrevStop(Model())
      {
        if tabs.value[col] { return; }
        col := col - 1;
      }
      col := 0;
    }

    /** One stop on, or to the edge the cursor may not pass. */
    method Tab()
      requires Valid() && StopsFit()
      modifies this`cur
      ensures Valid() && Model() == V.Tab(old(Model()))
    {
      ghost var s := Model();
      var next := NextTabStop();
      var x := if next >= rows.width then rows.width - 1 else next;
      if cur.x <= RightBound() && next > RightBound() { x := RightBound(); }
      assert V.Tab(s) == s.(cur := cur.(x := x));
      cur := cur.(x := x);
    }

    /** Stop by stop until one more changes nothing. */
    method Tabs(n: nat)
      requires Valid() && StopsFit()
      modifies this`cur
      ensures Valid() && Model() == V.Tabs(old(Model()), n)
    {
      ghost var s := Model();
      for i := 0 to n
        invariant Valid() && V.Tabs(Model(), n - i) == V.Tabs(s, n)
      {
        var x := cur.x;
        Tab();
        if cur.x == x { return; }
      }
    }

    /** To the stop before the cursor, or the first column. */
    method BackTab() returns (more: bool)
      requires Valid() && StopsFit()
      modifies this`cur
      ensures Valid() && more == (V.PrevStop(old(Model())) > 0)
      ensures Model() == old(Model()).(cur := old(cur).(x := V.PrevStop(old(Model()))))
    {
      var x := PrevTabStop();
      cur := cur.(x := x);
      more := x > 0;
    }

    method BackTabs(n: nat)
      requires Valid() && StopsFit()
      modifies this`cur
      ensures Valid() && Model() == V.BackTabs(old(Model()), n)
    {
      ghost var s := Model();
      for i := 0 to n
        invariant Valid() && V.BackTabs(Model(), n - i) == V.BackTabs(s, n)
      {
        PrevStopNonNegative(Model());
        BackTabsStep(Model(), n - i);
        var more := BackTab();
        if !more { return; }
      }
    }

    /** A stop set or cleared at the cursor, the default stops first written out. */
    method SetStop(on: bool)
      requires Valid() && StopsFit()
      modifies this`tabs
      ensures Model() == V.SetStop(old(Model()), on)
    {
      var stops := if tabs.Some? then tabs.value else V.DefaultStops(rows.width);
      tabs := Some(stops[cur.x := on]);
    }

    // --- margins and saved cursors -----------------------------------------------------------

    method Home()
      requires Valid()
      modifies this`cur
      ensures Valid() && Model() == V.Home(old(Model()))
    {
      cur := if modes.origin then V.Cursor(margins.top, LeftBound(), false) else V.Cursor(0, 0, false);
    }

    method SetScrollRegion(top: int, bottom: int)
      requires Valid() && 0 <= top && bottom < rows.height
      modifies this`margins, this`cur
      ensures Valid() && Model() == V.SetScrollRegion(old(Model()), top, bottom)
    {
      if top >= bottom { return; }
      margins := margins.(top := top, bottom := bottom);
      Home();
    }

    method SetSideMargins(left: int, right: int)
      requires Valid() && 0 <= left && right < rows.width
      modifies this`margins, this`cur
      ensures Valid() && Model() == V.SetSideMargins(old(Model()), left, right)
    {
      if left >= right { return; }
      margins := margins.(left := left, right := right);
      Home();
    }

    method SaveCursor()
      requires Valid()
      modifies this`saves
      ensures Valid() && Model() == V.SaveCursor(old(Model()))
    {
      var slot := V.Slot(cur.y, cur.x, cur.pending, pen.style, charsets.sets, charsets.gl, modes.origin, pen.decProtected);
      if rows.inAlt {
        saves := saves.(alt := Some(slot));
      } else {
        saves := saves.(main := Some(slot));
      }
    }

    method LoadSlot(slot: V.Slot)
      requires Valid()
      modifies this`cur, this`pen, this`modes, this`charsets
      ensures cur == V.Cursor(Min(slot.y, rows.height - 1), Min(slot.x, rows.width - 1), slot.pending)
      ensures pen == old(pen).(style := slot.style, decProtected := slot.decProtected)
      ensures modes == old(modes).(origin := slot.origin) && charsets == old(charsets).(sets := slot.sets, gl := slot.gl)
    {
      var (y, x) := (slot.y, slot.x);
      if y >= rows.height { y := rows.height - 1; }
      if x >= rows.width { x := rows.width - 1; }
      cur, modes := V.Cursor(y, x, slot.pending), modes.(origin := slot.origin);
      pen, charsets := pen.(style := slot.style, decProtected := slot.decProtected), charsets.(sets := slot.sets, gl := slot.gl);
    }

    /** Each screen has a slot of its own; an empty one homes the cursor. */
    method RestoreCursor()
      requires Valid()
      modifies this`cur, this`pen, this`modes, this`charsets
      ensures Model() == V.RestoreCursor(old(Model()))
    {
      ghost var s := Model();
      var kept := if rows.inAlt then saves.alt else saves.main;
      if kept.None? {
        cur := V.Cursor(0, 0, false);
      } else {
        LoadSlot(kept.value);
      }
      assert Model() == s.(cur := cur, pen := pen, modes := modes, charsets := charsets);
    }

    // --- scrolling and editing by count --------------------------------------------------------

    method ScrollUp(n: nat)
      requires Valid()
      modifies this`history, rows`cells, rows`wrapped, rows`repr, rows.repr
      ensures Valid() && fresh(rows.repr - old(rows.repr)) && Model() == V.ScrollUpBy(old(Model()), n)
    {
      ghost var trail := ScrollUpTrail(Model(), n);
      for i := 0 to n
        invariant Valid() && fresh(rows.repr - old(rows.repr)) && Model() == trail[i]
      {
        ScrollUpOnce();
      }
    }

    method ScrollDownOnce()
      requires Valid()
      modifies rows`cells, rows`wrapped, rows`repr, rows.repr
      ensures Valid() && fresh(rows.repr - old(rows.repr)) && Model() == V.ScrollDownOnce(old(Model()))
    {
      ghost var alt := AltModel();
      rows.ScrollStep(Box(margins.top, LeftBound(), margins.bottom, RightBound()), false, pen.style.bg);
      assert AltModel() == alt;
    }

    method ScrollDown(n: nat)
      requires Valid()
      modifies rows`cells, rows`wrapped, rows`repr, rows.repr
      ensures Valid() && fresh(rows.repr - old(rows.repr)) && Model() == V.ScrollDownBy(old(Model()), n)
    {
      ghost var trail := ScrollDownTrail(Model(), n);
      for i := 0 to n
        invariant Valid() && fresh(rows.repr - old(rows.repr)) && Model() == trail[i]
      {
        ScrollDownOnce();
      }
    }

    method DeleteChars(n: int)
      requires Valid() && n > 0
      modifies rows.repr
      ensures Valid() && Model() == V.DeleteChars(old(Model()), n)
    {
      if WithinH(cur.x) { MoveColumns(Box(cur.y, cur.x, cur.y, RightBound()), n); }
    }

    method InsertColumns(n: int)
      requires Valid() && n > 0
      modifies rows.repr
      ensures Valid() && Model() == V.InsertColumns(old(Model()), n)
    {
      if margins.top <= cur.y <= margins.bottom && WithinH(cur.x) {
        MoveColumns(Box(margins.top, cur.x, margins.bottom, RightBound()), -n);
      }
    }

    method DeleteColumns(n: int)
      requires Valid() && n > 0
      modifies rows.repr
      ensures Valid() && Model() == V.DeleteColumns(old(Model()), n)
    {
      if margins.top <= cur.y <= margins.bottom && WithinH(cur.x) {
        MoveColumns(Box(margins.top, cur.x, margins.bottom, RightBound()), n);
      }
    }

    method ShiftRows(n: int)
      requires Valid() && n != 0
      modifies rows.repr
      ensures Valid() && Model() == V.ShiftRows(old(Model()), n)
    {
      MoveColumns(Box(margins.top, 0, margins.bottom, rows.width - 1), n);
    }

    method ScrollColumns(n: int)
      requires Valid() && n != 0
      modifies rows.repr
      ensures Valid() && Model() == V.ScrollColumns(old(Model()), n)
    {
      MoveColumns(Box(margins.top, LeftBound(), margins.bottom, RightBound()), n);
    }

    method EraseRegion(b: Box, m: Spare)
      requires Valid()
      modifies rows.repr
      ensures Valid() && Model() == V.EraseBox(old(Model()), b, m)
    {
      rows.EraseBox(b, m, BlankOn(pen.style.bg));
      assert AltModel() == old(AltModel());
    }

    method EraseChars(n: int)
      requires Valid()
      modifies rows.repr
      ensures Valid() && Model() == V.EraseChars(old(Model()), n)
    {
      var end := cur.x + n - 1;
      if end >= rows.width { end := rows.width - 1; }
      EraseRegion(Box(cur.y, cur.x, cur.y, end), SpareIso);
    }

    // --- resize ------------------------------------------------------------------------------------

    /** The saved cursor follows the saved rows. */
    method FollowSaved(h: nat, w: nat)
      requires rows.Valid() && h >= 1
      modifies this`savedAt
      ensures savedAt == if rows.inAlt && !V.SameShape(rows.Hidden(), h, w)
                         then (Min(old(savedAt).0, h - 1), Min(old(savedAt).1, w - 1)) else old(savedAt)
    {
      assert |rows.Hidden()| == |rows.Behind()|;
      if rows.inAlt && (|rows.saved| != h || rows.saved[0].Length != w) {
        savedAt := (Min(savedAt.0, h - 1), Min(savedAt.1, w - 1));
      }
    }

    method ResizeRows(h: nat, w: nat)
      requires rows.Valid() && h >= 1 && w >= 1
      modifies this`savedAt, rows
      ensures rows.Valid() && rows.height == h && rows.width == w && rows.inAlt == old(rows.inAlt)
      ensures fresh(rows.Owned() - old(rows.Owned()))
      ensures Contents(rows.cells) == Refit(old(Contents(rows.cells)), h, w, Down(old(rows.height), h, rows.inAlt))
      ensures rows.wrapped == RefitFlags(old(rows.wrapped), h, Down(old(rows.height), h, rows.inAlt))
      ensures AltModel() == V.ResizedAlt(old(AltModel()), h, w)
    {
      ghost var alt, hidden, owned := AltModel(), rows.Hidden(), rows.Owned();
      FollowSaved(h, w);
      assert rows.Owned() == owned;
      rows.Resize(h, w);
      ResizedAltIs(alt, h, w, hidden);
    }

    /** Tab stops, cursor and margins for the new size. */
    method ResizeFrame(h: nat, w: nat)
      requires h >= 1 && w >= 1
      modifies this`cur, this`margins, this`tabs
      ensures tabs == V.ResizedStops(old(tabs), rows.width, w)
      ensures cur == V.ResizedCursor(old(cur), Down(rows.height, h, rows.inAlt), h, w)
      ensures margins == V.FullMargins(h, w).(lr := old(margins.lr))
    {
      ResizeTabStops(w);
      cur := cur.(y := cur.y + Down(rows.height, h, rows.inAlt));
      if cur.y >= h { cur := cur.(y := h - 1); }
      if cur.x >= w { cur := cur.(x := w - 1); }
      margins := V.Margins(0, h - 1, 0, w - 1, margins.lr);
    }

    method ResizeParts(h: nat, w: nat)
      requires Valid() && h >= 1 && w >= 1
      modifies this`cur, this`margins, this`tabs, this`savedAt, rows
      ensures rows.Valid() && rows.height == h && rows.width == w && rows.inAlt == old(rows.inAlt)
      ensures fresh(rows.Owned() - old(rows.Owned()))
      ensures Contents(rows.cells) == Refit(old(Contents(rows.cells)), h, w, Down(old(rows.height), h, rows.inAlt))
      ensures rows.wrapped == RefitFlags(old(rows.wrapped), h, Down(old(rows.height), h, rows.inAlt))
      ensures AltModel() == V.ResizedAlt(old(AltModel()), h, w) && tabs == V.ResizedStops(old(tabs), old(rows.width), w)
      ensures cur == V.ResizedCursor(old(cur), Down(old(rows.height), h, rows.inAlt), h, w)
      ensures margins == V.FullMargins(h, w).(lr := old(margins.lr))
    {
      ghost var alt, cells, owned := AltModel(), Contents(rows.cells), rows.Owned();
      ResizeFrame(h, w);
      assert AltModel() == alt && Contents(rows.cells) == cells && rows.Owned() == owned;
      ResizeRows(h, w);
    }

    method Resize(height: int, width: int)
      requires Valid()
      modifies this`cur, this`margins, this`tabs, this`savedAt, rows
      ensures Valid() && fresh(rows.Owned() - old(rows.Owned())) && Model() == V.Resize(old(Model()), height, width)
    {
      ghost var s := Model();
      var h, w := Max(height, 1), Max(width, 1);
      ResizeParts(h, w);
      ResizeIs(s, h, w, Contents(rows.cells), rows.wrapped, AltModel());
    }
  }

  /** The record of the main screen at a new size, rows and cursor apart. */
  lemma ResizedAltIs(a: V.Alt, h: nat, w: nat, hidden: Grid)
    requires a.saved.Some? ==> a.saved.value.cells == hidden
    ensures
      V.ResizedAlt(a, h, w) ==
      if a.saved.None? then a
      else
        var (y, x) := if V.SameShape(hidden, h, w) then (a.saved.value.y, a.saved.value.x)
                      else (Min(a.saved.value.y, h - 1), Min(a.saved.value.x, w - 1));
        a.(saved := Some(a.saved.value.(cells := FitSaved(hidden, h, w), y := y, x := x)))
  {}

  lemma ResizeIs(s: V.Screen, h: nat, w: nat, cells: Grid, wrapped: seq<bool>, alt: V.Alt)
    requires
      var down := Down(s.h, h, s.alt.active);
      cells == Refit(s.cells, h, w, down) && wrapped == RefitFlags(s.wrapped, h, down) && alt == V.ResizedAlt(s.alt, h, w)
    ensures
      V.ResizeTo(s, h, w) ==
      s.(h := h, w := w, cells := cells, wrapped := wrapped, cur := V.ResizedCursor(s.cur, Down(s.h, h, s.alt.active), h, w),
         margins := V.FullMargins(h, w).(lr := s.margins.lr), tabs := V.ResizedStops(s.tabs, s.w, w), alt := alt)
  {}
}
