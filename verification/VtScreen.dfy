/** The screen a byte stream draws on, as a value: grid, cursor, margins, pen, modes,
    saved cursors and the alternate screen. */
module VtScreen {
  import opened Prelude
  import opened Sgr
  import opened VtCells
  import CsiParams

  datatype Cursor = Cursor(y: int, x: int, pending: bool)

  datatype Margins = Margins(top: int, bottom: int, left: int, right: int, lr: bool)

  /** What a printed cell is printed with. */
  datatype Pen = Pen(style: Style, link: seq<int>, decProtected: bool, isoProtected: bool)

  datatype Modes = Modes(
    origin: bool, autoWrap: bool, insert: bool, newLine: bool, reverseWrap: bool, moreFix: bool,
    noClear: bool, level: nat)

  /** Designated sets G0-G3, the one in use, and a pending single shift (-1 for none). */
  datatype Charsets = Charsets(sets: seq<nat>, gl: nat, shift: int)

  const ASCII: nat := 0
  const GRAPHIC: nat := 1
  const UK: nat := 2
  const NO_SHIFT := -1

  datatype Slot = Slot(y: int, x: int, pending: bool, style: Style, sets: seq<nat>, gl: nat, origin: bool, decProtected: bool)

  /** The main screen as the alternate screen keeps it. */
  datatype Main = Main(cells: Grid, wrapped: seq<bool>, y: int, x: int, top: int, bottom: int, style: Style)

  datatype Alt = Alt(active: bool, saved: Option<Main>, stash: Option<Grid>)

  /** A row that has scrolled off, and whether the row below it continued it. */
  datatype Drained = Drained(cells: Row, continues: bool)

  datatype History = History(drained: seq<Drained>, tail: seq<Row>, cleared: bool)

  datatype Saves = Saves(main: Option<Slot>, alt: Option<Slot>, modes: map<nat, bool>)

  datatype Screen = Screen(
    h: nat, w: nat, cells: Grid, wrapped: seq<bool>, cur: Cursor, margins: Margins, pen: Pen, modes: Modes,
    charsets: Charsets, saves: Saves, alt: Alt, tabs: Option<seq<bool>>, history: History,
    lastRune: nat, lastStyle: Style)

  const PLAIN_PEN := Pen(PLAIN, [], false, false)
  const PLAIN_MODES := Modes(false, true, false, false, false, false, false, 65)
  const PLAIN_CHARSETS := Charsets([ASCII, ASCII, ASCII, ASCII], 0, NO_SHIFT)

  function FullMargins(h: nat, w: nat): Margins { Margins(0, h - 1, 0, w - 1, false) }

  function New(h: nat, w: nat): Screen {
    Screen(h, w, BlankGrid(h, w), ClearFlags(h), Cursor(0, 0, false), FullMargins(h, w), PLAIN_PEN, PLAIN_MODES,
           PLAIN_CHARSETS, Saves(None, None, map[]), Alt(false, None, None), None, History([], [], false), 0, PLAIN)
  }

  // --- bounds ----------------------------------------------------------------------------

  function LeftBound(s: Screen): int { if s.margins.lr then s.margins.left else 0 }

  function RightBound(s: Screen): int { if s.margins.lr then s.margins.right else s.w - 1 }

  predicate WithinH(s: Screen, x: int) { LeftBound(s) <= x <= RightBound(s) }

  predicate FullWidth(s: Screen) { LeftBound(s) == 0 && RightBound(s) == s.w - 1 }

  /** The column at which a glyph at column `x` wraps. */
  function EdgeAt(s: Screen, x: int): int { if WithinH(s, x) then RightBound(s) else s.w - 1 }

  function WrapEdge(s: Screen): int { EdgeAt(s, s.cur.x) }

  function WrapColumn(s: Screen): int { if WithinH(s, s.cur.x) then LeftBound(s) else 0 }

  function Region(s: Screen, top: int): Box { Box(top, LeftBound(s), s.margins.bottom, RightBound(s)) }

  function Clamp(v: int, low: int, high: int): int { Min(Max(v, low), high) }

  function PenBlank(s: Screen): Cell { BlankOn(s.pen.style.bg) }

  // --- scrolling -------------------------------------------------------------------------

  const TAIL_ROWS := 3

  function Last(tail: seq<Row>, n: nat): seq<Row> { if |tail| > n then tail[|tail| - n..] else tail }

  function TopRow(s: Screen): Row { if s.cells == [] then [] else s.cells[0] }

  /** Row 0 goes to the history; its text is kept while the row below continues it. */
  function Drain(s: Screen): Screen {
    var continues := |s.wrapped| > 1 && s.wrapped[1];
    var tail :=
      if s.alt.active then s.history.tail
      else if continues then Last(s.history.tail + [TopRow(s)], TAIL_ROWS)
      else [];
    s.(history := History(s.history.drained + [Drained(TopRow(s), continues)], tail, s.history.cleared))
  }

  /** Rows from `top` to the bottom margin move up `n` (down, if negative); whole rows
      carry their wrap flags, a narrower box leaves the flags alone. */
  function ScrollFrom(s: Screen, top: int, n: int): Screen {
    s.(cells := MoveUp(s.cells, s.h, s.w, Region(s, top), n, PenBlank(s)),
       wrapped := if FullWidth(s) then MoveFlags(s.wrapped, top, s.margins.bottom, n) else s.wrapped)
  }

  function ScrollUpOnce(s: Screen): Screen {
    var drains := FullWidth(s) && s.margins.top == 0 && s.margins.bottom == s.h - 1;
    ScrollFrom(if drains then Drain(s) else s, s.margins.top, 1)
  }

  /** Scrolling never touches the cursor or the margins. */
  lemma ScrollFrame(s: Screen)
    ensures ScrollUpOnce(s).cur == s.cur && ScrollUpOnce(s).margins == s.margins && ScrollUpOnce(s).h == s.h
    ensures ScrollUpOnce(s).w == s.w && |ScrollUpOnce(s).wrapped| == |s.wrapped|
    ensures ScrollUpOnce(s).modes == s.modes && ScrollUpOnce(s).alt == s.alt
  {}

  /** Moving the cursor before a scroll or after it comes to the same. */
  lemma ScrollIgnoresCursor(s: Screen, c: Cursor)
    ensures ScrollUpOnce(s.(cur := c)) == ScrollUpOnce(s).(cur := c)
  {
    var t := s.(cur := c);
    assert Drain(t) == Drain(s).(cur := c);
  }

  function ScrollUpBy(s: Screen, n: nat): Screen
    decreases n
  {
    if n == 0 then s else ScrollUpBy(ScrollUpOnce(s), n - 1)
  }

  function ScrollDownOnce(s: Screen): Screen { ScrollFrom(s, s.margins.top, -1) }

  function ScrollDownBy(s: Screen, n: nat): Screen
    decreases n
  {
    if n == 0 then s else ScrollDownBy(ScrollDownOnce(s), n - 1)
  }

  function LineDown(s: Screen): Screen {
    if s.cur.y == s.margins.bottom then (if WithinH(s, s.cur.x) then ScrollUpOnce(s) else s)
    else if s.cur.y < s.h - 1 then s.(cur := s.cur.(y := s.cur.y + 1))
    else s
  }

  function ReverseIndex(s: Screen): Screen {
    var t := s.(cur := s.cur.(pending := false));
    if t.cur.y == t.margins.top then (if WithinH(t, t.cur.x) then ScrollDownOnce(t) else t)
    else if t.cur.y > 0 then t.(cur := t.cur.(y := t.cur.y - 1))
    else t
  }

  // --- printing ----------------------------------------------------------------------------

  /** To the start of the next line. A row at or below the bottom margin scrolls the
      region and leaves the cursor on that margin. */
  function NextLine(s: Screen): Screen {
    var moved := s.(cur := Cursor(s.cur.y + 1, WrapColumn(s), false));
    if moved.cur.y > moved.margins.bottom then
      var up := ScrollUpOnce(moved);
      up.(cur := up.cur.(y := up.margins.bottom))
    else moved
  }

  /** What a deferred wrap and a wide glyph at the edge do. */
  function WrapLine(s: Screen): Screen { MarkContinuation(NextLine(s)) }

  function MarkContinuation(s: Screen): Screen {
    if FullWidth(s) && 0 <= s.cur.y < |s.wrapped| then s.(wrapped := s.wrapped[s.cur.y := true]) else s
  }

  function InkCell(s: Screen, ch: nat): Cell {
    Cell(ch, s.pen.style, s.pen.link, s.pen.decProtected, s.pen.isoProtected)
  }

  function Write(s: Screen, x: int, c: Cell): Screen {
    s.(cells := SetCell(s.cells, s.h, s.w, s.cur.y, x, c))
  }

  /** A wide glyph with one cell left before the edge leaves a plain blank there. */
  function WrapWide(s: Screen): Screen {
    WrapLine(Write(s, s.cur.x, Cell(SPACE, s.pen.style, [], false, false)))
  }

  function InkFirst(s: Screen, rune: nat): Screen {
    Write(s, s.cur.x, InkCell(s, rune)).(lastRune := rune, lastStyle := s.pen.style)
  }

  /** The second half of a wide glyph, if there is a column for it. */
  function Spacer(s: Screen): Screen { if s.cur.x + 1 < s.w then Write(s, s.cur.x + 1, InkCell(s, 0)) else s }

  function Ink(s: Screen, rune: nat, width: nat): Screen {
    var t := InkFirst(s, rune);
    if width != 2 then t else Spacer(t).(cur := t.cur.(x := t.cur.x + 1))
  }

  /** Past a glyph at column `x`, or at the edge with the wrap deferred. */
  function CursorPast(s: Screen, x: int): Cursor {
    if x >= s.w then Cursor(s.cur.y, s.w - 1, s.modes.autoWrap)
    else if x >= EdgeAt(s, x) then Cursor(s.cur.y, EdgeAt(s, x), s.modes.autoWrap)
    else s.cur.(x := x + 1)
  }

  function Advance(s: Screen): Screen { s.(cur := CursorPast(s, s.cur.x)) }

  function WrapIfPending(s: Screen): Screen { if s.cur.pending then WrapLine(s) else s }

  function WrapIfTooWide(s: Screen, width: nat): Screen {
    if width == 2 && s.cur.x >= WrapEdge(s) && s.modes.autoWrap then WrapWide(s) else s
  }

  function PutWrapped(s: Screen, width: nat): Screen { WrapIfTooWide(WrapIfPending(s), width) }

  function PutGlyph(s: Screen, rune: nat, width: nat): Screen {
    if width == 0 then s
    else
      var t := PutWrapped(s, width);
      Advance(Ink(if t.modes.insert then InsertChars(t, width) else t, rune, width))
  }

  function Repeat(s: Screen, rune: nat, width: nat, n: nat): Screen
    decreases n
  {
    if n == 0 then s else Repeat(PutGlyph(s, rune, width), rune, width, n - 1)
  }

  function RepeatLast(s: Screen, width: nat, n: nat): Screen {
    if s.lastRune == 0 then s
    else
      var t := Repeat(s.(pen := s.pen.(style := s.lastStyle)), s.lastRune, width, n);
      t.(pen := t.pen.(style := s.pen.style))
  }

  // --- editing -----------------------------------------------------------------------------

  function CursorRow(s: Screen): Box { Box(s.cur.y, s.cur.x, s.cur.y, RightBound(s)) }

  function InsertChars(s: Screen, n: int): Screen {
    if WithinH(s, s.cur.x) then s.(cells := MoveLeft(s.cells, s.h, s.w, CursorRow(s), -n, PenBlank(s))) else s
  }

  function DeleteChars(s: Screen, n: int): Screen {
    if WithinH(s, s.cur.x) then s.(cells := MoveLeft(s.cells, s.h, s.w, CursorRow(s), n, PenBlank(s))) else s
  }

  predicate InRegion(s: Screen) { s.margins.top <= s.cur.y <= s.margins.bottom && WithinH(s, s.cur.x) }

  /** Columns from the cursor to the right margin, over the region's rows. */
  function Columns(s: Screen): Box { Box(s.margins.top, s.cur.x, s.margins.bottom, RightBound(s)) }

  function InsertColumns(s: Screen, n: int): Screen {
    if InRegion(s) then s.(cells := MoveLeft(s.cells, s.h, s.w, Columns(s), -n, PenBlank(s))) else s
  }

  function DeleteColumns(s: Screen, n: int): Screen {
    if InRegion(s) then s.(cells := MoveLeft(s.cells, s.h, s.w, Columns(s), n, PenBlank(s))) else s
  }

  function InsertLines(s: Screen, n: int): Screen {
    if InRegion(s) then ScrollFrom(s, s.cur.y, -n).(cur := Cursor(s.cur.y, LeftBound(s), false)) else s
  }

  function DeleteLines(s: Screen, n: int): Screen {
    if InRegion(s) then ScrollFrom(s, s.cur.y, n).(cur := Cursor(s.cur.y, LeftBound(s), false)) else s
  }

  /** Whole rows of the region sideways, margins or not. */
  function ShiftRows(s: Screen, n: int): Screen {
    s.(cells := MoveLeft(s.cells, s.h, s.w, Box(s.margins.top, 0, s.margins.bottom, s.w - 1), n, PenBlank(s)))
  }

  function ScrollColumns(s: Screen, n: int): Screen {
    s.(cells := MoveLeft(s.cells, s.h, s.w, Region(s, s.margins.top), n, PenBlank(s)))
  }

  function BackIndex(s: Screen): Screen {
    var t := s.(cur := s.cur.(pending := false));
    if t.cur.x == LeftBound(t) then ScrollColumns(t, -1)
    else if t.cur.x > 0 then t.(cur := t.cur.(x := t.cur.x - 1))
    else t
  }

  function ForwardIndex(s: Screen): Screen {
    var t := s.(cur := s.cur.(pending := false));
    if t.cur.x == RightBound(t) then ScrollColumns(t, 1)
    else if t.cur.x < t.w - 1 then t.(cur := t.cur.(x := t.cur.x + 1))
    else t
  }

  function EraseBox(s: Screen, b: Box, m: Spare): Screen {
    s.(cells := Erase(s.cells, s.h, s.w, b, m, PenBlank(s)))
  }

  function WholeScreen(s: Screen): Box { Box(0, 0, s.h - 1, s.w - 1) }

  function EraseDisplay(s: Screen, mode: nat, selective: bool): Screen {
    var regular := if selective then SpareBoth else SpareIso;
    match mode
    case 0 =>
      EraseBox(EraseBox(s, Box(s.cur.y, s.cur.x, s.cur.y, s.w - 1), regular),
               Box(s.cur.y + 1, 0, s.h - 1, s.w - 1), regular)
    case 1 =>
      EraseBox(EraseBox(s, Box(0, 0, s.cur.y - 1, s.w - 1), regular), Box(s.cur.y, 0, s.cur.y, s.cur.x), regular)
    case 2 =>
      EraseBox(s, WholeScreen(s), if selective then SpareBoth else SpareNone).(
        wrapped := ClearFlags(s.h), history := History([], [], s.history.cleared))
    case 3 => s.(history := History([], [], true))
    case _ => s
  }

  function EraseLine(s: Screen, mode: nat, selective: bool): Screen {
    var m := if selective then SpareBoth else SpareIso;
    match mode
    case 0 => EraseBox(s, Box(s.cur.y, s.cur.x, s.cur.y, s.w - 1), m)
    case 1 => EraseBox(s, Box(s.cur.y, 0, s.cur.y, s.cur.x), m)
    case 2 => EraseBox(s, Box(s.cur.y, 0, s.cur.y, s.w - 1), m)
    case _ => s
  }

  function EraseChars(s: Screen, n: int): Screen {
    EraseBox(s, Box(s.cur.y, s.cur.x, s.cur.y, Min(s.cur.x + n - 1, s.w - 1)), SpareIso)
  }

  // --- rectangles --------------------------------------------------------------------------

  /** The rows and columns rectangles are confined to. */
  function Page(s: Screen): Box {
    if s.modes.origin then Region(s, s.margins.top) else WholeScreen(s)
  }

  function RectBox(s: Screen, pt: nat, pl: nat, pb: nat, pr: nat): Box {
    var p := Page(s);
    var (oy, ox) := if s.modes.origin then (s.margins.top, LeftBound(s)) else (0, 0);
    Box(Clamp(Max(pt, 1) - 1 + oy, p.top, p.bottom),
        Clamp(Max(pl, 1) - 1 + ox, p.left, p.right),
        if pb >= 1 then Clamp(pb - 1 + oy, p.top, p.bottom) else p.bottom,
        if pr >= 1 then Clamp(pr - 1 + ox, p.left, p.right) else p.right)
  }

  function FillRect(s: Screen, ch: nat, b: Box): Screen {
    var ink := Cell(if ch < 0x20 then SPACE else ch, s.pen.style, [], s.pen.decProtected, false);
    s.(cells := Erase(s.cells, s.h, s.w, b, SpareNone, ink))
  }

  function CopyRect(s: Screen, b: Box, ptd: nat, pld: nat): Screen {
    var d := RectBox(s, ptd, pld, 0, 0);
    s.(cells := CopyBox(s.cells, s.h, s.w, b, d.top, d.left))
  }

  /** The alignment pattern. */
  function AlignmentTest(s: Screen): Screen {
    var e := Cell('E' as int, PLAIN, [], false, false);
    s.(cells := Erase(s.cells, s.h, s.w, WholeScreen(s), SpareNone, e),
       margins := FullMargins(s.h, s.w), cur := Cursor(0, 0, false))
  }

  // --- cursor motion -------------------------------------------------------------------------

  function Place(s: Screen, y: int, x: int): Screen {
    s.(cur := s.cur.(y := Clamp(y, 0, s.h - 1), x := Clamp(x, 0, s.w - 1)))
  }

  function Up(s: Screen, n: int): Screen {
    Place(s, Max(s.cur.y - n, if s.cur.y >= s.margins.top then s.margins.top else 0), s.cur.x)
  }

  function Down(s: Screen, n: int): Screen {
    Place(s, Min(s.cur.y + n, if s.cur.y <= s.margins.bottom then s.margins.bottom else s.h - 1), s.cur.x)
  }

  function Right(s: Screen, n: int): Screen {
    Place(s, s.cur.y, Min(s.cur.x + n, if s.cur.x <= RightBound(s) then RightBound(s) else s.w - 1))
  }

  function Left(s: Screen, n: int): Screen {
    if s.modes.reverseWrap && s.modes.autoWrap then Backspaces(s, Max(n, 1))
    else Place(s, s.cur.y, Max(s.cur.x - Max(n, 1), if s.cur.x >= LeftBound(s) then LeftBound(s) else 0))
  }

  function Backspace(s: Screen): Screen {
    var reverse := s.modes.reverseWrap && s.modes.autoWrap;
    var left := LeftBound(s);
    if s.cur.pending && reverse then s.(cur := s.cur.(pending := false))
    else if s.cur.x > left then s.(cur := Cursor(s.cur.y, s.cur.x - 1, false))
    else if reverse then
      s.(cur := Cursor(if s.cur.y > s.margins.top then s.cur.y - 1 else s.margins.bottom, RightBound(s), false))
    else if 0 < s.cur.x < left then s.(cur := Cursor(s.cur.y, s.cur.x - 1, false))
    else s.(cur := s.cur.(pending := false))
  }

  function Backspaces(s: Screen, n: nat): Screen
    decreases n
  {
    if n == 0 then s else Backspaces(Backspace(s), n - 1)
  }

  function OriginRow(s: Screen, y: int): int {
    if s.modes.origin then Min(Max(y, 0) + s.margins.top, s.margins.bottom) else Min(Max(y, 0), s.h - 1)
  }

  function OriginCol(s: Screen, x: int): int {
    if s.modes.origin then Min(Max(x, 0) + LeftBound(s), RightBound(s)) else Min(Max(x, 0), s.w - 1)
  }

  function MoveTo(s: Screen, y: int, x: int): Screen {
    s.(cur := s.cur.(y := OriginRow(s, y), x := OriginCol(s, x)))
  }

  function ToColumn(s: Screen, x: int): Screen { s.(cur := s.cur.(x := OriginCol(s, x))) }

  function ToLeft(s: Screen): Screen { s.(cur := s.cur.(x := LeftBound(s))) }

  function CarriageReturn(s: Screen): Screen {
    s.(cur := s.cur.(x := if s.cur.x >= LeftBound(s) then LeftBound(s) else 0))
  }

  function Home(s: Screen): Screen {
    s.(cur := if s.modes.origin then Cursor(s.margins.top, LeftBound(s), false) else Cursor(0, 0, false))
  }

  // --- tab stops -----------------------------------------------------------------------------

  function DefaultStops(w: nat): (t: seq<bool>)
    ensures |t| == w
  {
    seq(w, i => i > 0 && i % 8 == 0)
  }

  function Stops(s: Screen): seq<bool> { if s.tabs.Some? then s.tabs.value else DefaultStops(s.w) }

  function SetStop(s: Screen, on: bool): Screen {
    var t := Stops(s);
    s.(tabs := Some(if 0 <= s.cur.x < |t| then t[s.cur.x := on] else t))
  }

  function NextSet(t: seq<bool>, i: int, w: nat): int
    decreases w - i
  {
    if i >= w then w else if 0 <= i < |t| && t[i] then i else NextSet(t, i + 1, w)
  }

  function PrevSet(t: seq<bool>, i: int): int
    decreases i
  {
    if i < 0 then 0 else if i < |t| && t[i] then i else PrevSet(t, i - 1)
  }

  function NextStop(s: Screen): int {
    if s.tabs.None? then (s.cur.x / 8 + 1) * 8 else NextSet(s.tabs.value, s.cur.x + 1, s.w)
  }

  function PrevStop(s: Screen): int {
    if s.tabs.None? then Max((s.cur.x - 1) / 8 * 8, 0) else PrevSet(s.tabs.value, s.cur.x - 1)
  }

  /** One stop on, or to the edge the cursor may not pass. */
  function Tab(s: Screen): Screen {
    var right, next := RightBound(s), NextStop(s);
    s.(cur := s.cur.(x := if s.cur.x <= right && next > right then right else if next >= s.w then s.w - 1 else next))
  }

  predicate TabStuck(s: Screen) { Tab(s).cur.x == s.cur.x }

  function Tabs(s: Screen, n: nat): Screen
    decreases n
  {
    if n == 0 || TabStuck(s) then s else Tabs(Tab(s), n - 1)
  }

  function BackTabs(s: Screen, n: nat): Screen
    decreases n
  {
    if n == 0 then s
    else
      var x := PrevStop(s);
      if x <= 0 then s.(cur := s.cur.(x := 0)) else BackTabs(s.(cur := s.cur.(x := x)), n - 1)
  }

  // --- margins, saved cursors, modes -------------------------------------------------------------

  function SetScrollRegion(s: Screen, top: int, bottom: int): Screen {
    if top >= bottom then s else Home(s.(margins := s.margins.(top := top, bottom := bottom)))
  }

  function SetSideMargins(s: Screen, left: int, right: int): Screen {
    if left >= right then s else Home(s.(margins := s.margins.(left := left, right := right)))
  }

  function SaveCursor(s: Screen): Screen {
    var slot := Some(Slot(s.cur.y, s.cur.x, s.cur.pending, s.pen.style, s.charsets.sets, s.charsets.gl,
                          s.modes.origin, s.pen.decProtected));
    s.(saves := if s.alt.active then s.saves.(alt := slot) else s.saves.(main := slot))
  }

  function RestoreCursor(s: Screen): Screen {
    match (if s.alt.active then s.saves.alt else s.saves.main)
    case None => s.(cur := Cursor(0, 0, false))
    case Some(slot) =>
      s.(cur := Cursor(Min(slot.y, s.h - 1), Min(slot.x, s.w - 1), slot.pending),
         pen := s.pen.(style := slot.style, decProtected := slot.decProtected),
         modes := s.modes.(origin := slot.origin),
         charsets := s.charsets.(sets := slot.sets, gl := slot.gl))
  }

  function ColumnMode(s: Screen): Screen {
    var t := s.(margins := FullMargins(s.h, s.w), cur := Cursor(0, 0, false));
    if s.modes.noClear && s.modes.level >= 65 then t
    else EraseBox(t, WholeScreen(t), SpareNone).(history := s.history.(drained := []))
  }

  function SoftReset(s: Screen): Screen {
    s.(pen := PLAIN_PEN, margins := FullMargins(s.h, s.w), saves := s.saves.(main := None, alt := None),
       cur := s.cur.(pending := false), modes := PLAIN_MODES.(level := s.modes.level), charsets := PLAIN_CHARSETS)
  }

  function HardReset(s: Screen): Screen {
    var t := SoftReset(s);
    EraseBox(t, WholeScreen(t), SpareNone).(
      cur := Cursor(0, 0, false), wrapped := ClearFlags(s.h), history := History([], [], true),
      alt := Alt(false, None, None), tabs := None)
  }

  predicate IsAltMode(mode: nat) { mode == 47 || mode == 1047 || mode == 1049 }

  /** The stashed alternate buffer, if it still has the screen's size. */
  function AltBuffer(s: Screen, mode: nat): Grid {
    if mode == 1049 || s.alt.stash.None? || !SameShape(s.alt.stash.value, s.h, s.w) then BlankGrid(s.h, s.w)
    else s.alt.stash.value
  }

  predicate SameShape(g: Grid, h: nat, w: nat) { |g| == h && h > 0 && |g[0]| == w }

  function SavedMain(s: Screen): Main {
    Main(s.cells, s.wrapped, s.cur.y, s.cur.x, s.margins.top, s.margins.bottom, s.pen.style)
  }

  /** The main screen put aside and alternate rows shown. */
  function PutAside(s: Screen, mode: nat): Screen {
    s.(alt := Alt(true, Some(SavedMain(s)), None), cells := AltBuffer(s, mode), wrapped := ClearFlags(s.h))
  }

  /** The whole screen scrolls; mode 1049 also homes the cursor and resets the pen. */
  function AltPen(s: Screen, mode: nat): Screen {
    s.(margins := s.margins.(top := 0, bottom := s.h - 1),
       cur := if mode == 1049 then s.cur.(y := 0, x := 0) else s.cur,
       pen := s.pen.(link := [], style := if mode == 1049 then PLAIN else s.pen.style))
  }

  function EnterAlt(s: Screen, mode: nat): Screen { if s.alt.active then s else AltPen(PutAside(s, mode), mode) }

  /** The saved main rows back at the size the screen has now; mode 47 keeps the others. */
  function BringBack(s: Screen, m: Main, mode: nat): Screen {
    s.(alt := Alt(false, None, if mode == 47 then Some(s.cells) else None),
       cells := Refit(m.cells, s.h, s.w, 0), wrapped := RefitFlags(m.wrapped, s.h, 0))
  }

  /** The saved region, its top as it was and only its bottom clamped; mode 1049 restores
      the cursor and the pen's style. */
  function MainPen(s: Screen, m: Main, mode: nat): Screen {
    s.(margins := s.margins.(top := m.top, bottom := Min(m.bottom, s.h - 1)),
       cur := s.cur.(y := Min(if mode == 1049 then m.y else s.cur.y, s.h - 1),
                     x := Min(if mode == 1049 then m.x else s.cur.x, s.w - 1)),
       pen := s.pen.(link := [], style := if mode == 1049 then m.style else s.pen.style))
  }

  function ExitAlt(s: Screen, mode: nat): Screen {
    if !s.alt.active || s.alt.saved.None? then s
    else MainPen(BringBack(s, s.alt.saved.value, mode), s.alt.saved.value, mode)
  }

  function SetMode(s: Screen, mode: nat): Screen {
    if mode == 3 then ColumnMode(s)
    else if mode == 6 then s.(modes := s.modes.(origin := true), cur := s.cur.(y := s.margins.top, x := LeftBound(s)))
    else if IsAltMode(mode) then EnterAlt(s, mode)
    else if mode == 1048 then SaveCursor(s)
    else if mode == 69 then (if s.modes.level >= 64 then s.(margins := s.margins.(lr := true)) else s)
    else s.(modes := SwitchMode(s.modes, mode, true))
  }

  function ResetMode(s: Screen, mode: nat): Screen {
    if mode == 3 then ColumnMode(s)
    else if mode == 6 then s.(modes := s.modes.(origin := false), cur := s.cur.(y := 0, x := 0))
    else if IsAltMode(mode) then
      var t := ExitAlt(s, mode);
      t.(history := t.history.(drained := []))
    else if mode == 1048 then RestoreCursor(s)
    else if mode == 69 then s.(margins := s.margins.(lr := false, left := 0, right := s.w - 1))
    else s.(modes := SwitchMode(s.modes, mode, false))
  }

  function SwitchMode(m: Modes, mode: nat, on: bool): Modes {
    match mode
    case 7 => m.(autoWrap := on)
    case 41 => m.(moreFix := on)
    case 45 => m.(reverseWrap := on)
    case 95 => m.(noClear := on)
    case _ => m
  }

  function ApplyMode(s: Screen, mode: nat, on: bool): Screen { if on then SetMode(s, mode) else ResetMode(s, mode) }

  function ApplyModes(s: Screen, modes: seq<nat>, on: bool): Screen
    decreases |modes|
  {
    if modes == [] then s else ApplyModes(ApplyMode(s, modes[0], on), modes[1..], on)
  }

  function AnsiMode(m: Modes, mode: nat, on: bool): Modes {
    if mode == 4 then m.(insert := on) else if mode == 20 then m.(newLine := on) else m
  }

  function AnsiModes(m: Modes, modes: seq<nat>, on: bool): Modes
    decreases |modes|
  {
    if modes == [] then m else AnsiModes(AnsiMode(m, modes[0], on), modes[1..], on)
  }

  /** Whether a mode reads back as set, for the modes that matter here. */
  predicate ModeIsSet(s: Screen, mode: nat) {
    if IsAltMode(mode) then s.alt.active
    else if mode == 69 then s.margins.lr
    else
      match mode
      case 6 => s.modes.origin
      case 7 => s.modes.autoWrap
      case 45 => s.modes.reverseWrap
      case 95 => s.modes.noClear
      case _ => false
  }

  function RememberModes(s: Screen, modes: seq<nat>): Screen
    decreases |modes|
  {
    if modes == [] then s
    else RememberModes(s.(saves := s.saves.(modes := s.saves.modes[modes[0] := ModeIsSet(s, modes[0])])), modes[1..])
  }

  predicate Remembered(s: Screen, mode: nat) { mode in s.saves.modes && s.saves.modes[mode] }

  function RecallModes(s: Screen, modes: seq<nat>): Screen
    decreases |modes|
  {
    if modes == [] then s else RecallModes(ApplyMode(s, modes[0], Remembered(s, modes[0])), modes[1..])
  }

  // --- resize ------------------------------------------------------------------------------------

  /** New rows come above an alternate screen's contents and below a main screen's. */
  function Grown(s: Screen, rows: nat): nat { if rows > s.h && s.alt.active then rows - s.h else 0 }

  /** The stops there are, and the default ones in columns newly shown. */
  function ResizedStops(tabs: Option<seq<bool>>, w: nat, cols: nat): Option<seq<bool>> {
    if cols == w || tabs.None? then tabs
    else Some(seq(cols, i requires 0 <= i => if i < |tabs.value| then tabs.value[i] else i > 0 && i % 8 == 0))
  }

  function ResizeSaved(m: Main, rows: nat, cols: nat): Main {
    if SameShape(m.cells, rows, cols) then m
    else m.(cells := Refit(m.cells, rows, cols, 0), y := Min(m.y, rows - 1), x := Min(m.x, cols - 1))
  }

  /** The alternate screen's record of the main one, at the new size. */
  function ResizedAlt(a: Alt, rows: nat, cols: nat): Alt {
    if a.saved.None? then a else a.(saved := Some(ResizeSaved(a.saved.value, rows, cols)))
  }

  function ResizedCursor(c: Cursor, down: nat, rows: nat, cols: nat): Cursor {
    c.(y := Min(c.y + down, rows - 1), x := Min(c.x, cols - 1))
  }

  function ResizeTo(s: Screen, rows: nat, cols: nat): Screen {
    var down := Grown(s, rows);
    s.(h := rows, w := cols, cells := Refit(s.cells, rows, cols, down), wrapped := RefitFlags(s.wrapped, rows, down),
       cur := ResizedCursor(s.cur, down, rows, cols), margins := FullMargins(rows, cols).(lr := s.margins.lr),
       tabs := ResizedStops(s.tabs, s.w, cols), alt := ResizedAlt(s.alt, rows, cols))
  }

  function Resize(s: Screen, rows: int, cols: int): Screen { ResizeTo(s, Max(rows, 1), Max(cols, 1)) }

  // --- scrolling composes ------------------------------------------------------------------

  lemma FlagMoved(f: seq<bool>, top: int, bottom: int, n: int, y: nat)
    requires y < |f|
    ensures MoveFlags(f, top, bottom, n)[y] ==
            if top <= y <= bottom then top <= y + n <= bottom && FlagAt(f, y + n) else f[y]
  {}

  lemma FlagsTwice(f: seq<bool>, top: int, bottom: int, n: int, m: int)
    requires (n >= 0 && m >= 0) || (n <= 0 && m <= 0)
    ensures MoveFlags(MoveFlags(f, top, bottom, n), top, bottom, m) == MoveFlags(f, top, bottom, n + m)
  {
    var first := MoveFlags(f, top, bottom, n);
    var twice, once := MoveFlags(first, top, bottom, m), MoveFlags(f, top, bottom, n + m);
    forall y: nat | y < |f| ensures twice[y] == once[y] {
      FlagMoved(first, top, bottom, m, y);
      FlagMoved(f, top, bottom, n + m, y);
      FlagMoved(f, top, bottom, n, y);
      if 0 <= y + m < |f| { FlagMoved(f, top, bottom, n, y + m); }
    }
  }
}
