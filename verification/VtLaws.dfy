/** What printing, erasing and editing do to the cells of the screen, position by position:
    laws of the controls, said without the functions that do them. */
module VtLaws {
  import opened Prelude
  import opened Sgr
  import opened VtCells
  import opened VtScreen
  import opened VtStream
  import I = VtInvariant

  type Final = c: char | c as int < 256 witness 'A'

  /** A control sequence without marker or intermediate bytes, one value to a parameter. */
  function Csi(s: Screen, env: Env, ps: seq<nat>, f: Final): Screen {
    DispatchCsi(s, env, Groups1(ps), [], 0, f as int)
  }

  function Groups1(ps: seq<nat>): (gs: Groups)
    ensures |gs| == |ps| && forall i :: 0 <= i < |ps| ==> gs[i] == [ps[i]]
  {
    seq(|ps|, i requires 0 <= i < |ps| => [ps[i]])
  }

  predicate OnScreen(s: Screen, y: int, x: int) { 0 <= y < s.h && 0 <= x < s.w }

  function Seen(s: Screen, y: int, x: int): Cell { At(s.cells, y, x) }

  /** Two screens alike but for their cells, and perhaps a deferred wrap. */
  predicate OnlyCells(s: Screen, t: Screen) {
    t.(cells := s.cells, cur := s.cur) == s && t.cur.y == s.cur.y && t.cur.x == s.cur.x && Sized(t.cells, s.h, s.w)
  }

  /** What an erased or vacated cell holds: a space on the pen's background, and nothing else
      of the pen. */
  function Vacant(s: Screen): Cell {
    Cell(32, Style(DEFAULT_COLOR, s.pen.style.bg, DEFAULT_COLOR, NO_ATTRS), [], false, false)
  }

  // --- printing ----------------------------------------------------------------------------

  /** The glyph of a rune with the pen, or of its second half. */
  function InkOf(s: Screen, ch: nat): Cell { Cell(ch, s.pen.style, s.pen.link, s.pen.decProtected, s.pen.isoProtected) }

  /** The last column open to a glyph that ends in column `x`. */
  function LastColumn(s: Screen, x: int): int {
    if s.margins.lr && s.margins.left <= x <= s.margins.right then s.margins.right
    else s.w - 1
  }

  /** A glyph goes where the cursor is: no wrap is deferred, and a wide one has room or
      nowhere to wrap to. */
  predicate PrintsHere(s: Screen, width: nat) {
    !s.cur.pending && (width == 2 && s.modes.autoWrap ==> s.cur.x < LastColumn(s, s.cur.x))
  }

  /** What the row held there before the glyph: insert mode makes room for it first. */
  function Pushed(s: Screen, width: nat, y: int, x: int): Cell {
    var right := if s.margins.lr then s.margins.right else s.w - 1;
    var left := if s.margins.lr then s.margins.left else 0;
    if s.modes.insert && y == s.cur.y && left <= s.cur.x <= x <= right then
      (if x - width >= s.cur.x then Seen(s, y, x - width) else Vacant(s))
    else Seen(s, y, x)
  }

  lemma InsertedCells(s: Screen, width: nat, y: nat, x: nat)
    requires I.Safe(s) && y < s.h && x < s.w
    ensures Seen(if s.modes.insert then InsertChars(s, width) else s, y, x) == Pushed(s, width, y, x)
  {
    MovedLeftCells(s.cells, s.h, s.w, CursorRow(s), -(width as int), PenBlank(s));
  }

  /** The row once insert mode has made room. */
  function Opened(s: Screen, width: nat): Screen { if s.modes.insert then InsertChars(s, width) else s }

  lemma OpenedKeeps(s: Screen, width: nat)
    requires I.Safe(s)
    ensures I.Safe(Opened(s, width)) && Opened(s, width).(cells := s.cells) == s
  {
    I.EditKeeps(s, width);
  }

  lemma PutHere(s: Screen, rune: nat, width: nat)
    requires I.Safe(s) && (width == 1 || width == 2) && PrintsHere(s, width)
    ensures PutGlyph(s, rune, width) == Advance(Ink(Opened(s, width), rune, width))
  {
    assert WrapEdge(s) == LastColumn(s, s.cur.x);
    assert PutWrapped(s, width) == s;
  }

  lemma InkedCells(u: Screen, rune: nat, width: nat, y: nat, x: nat)
    requires I.Safe(u) && (width == 1 || width == 2) && y < u.h && x < u.w
    ensures Seen(Advance(Ink(u, rune, width)), y, x) ==
            if y == u.cur.y && x == u.cur.x then InkOf(u, rune)
            else if width == 2 && y == u.cur.y && x == u.cur.x + 1 then InkOf(u, 0)
            else Seen(u, y, x)
  {
    var first := InkFirst(u, rune);
    SetCells(u.cells, u.h, u.w, u.cur.y, u.cur.x, InkOf(u, rune));
    if width == 2 && u.cur.x + 1 < u.w { SetCells(first.cells, u.h, u.w, u.cur.y, u.cur.x + 1, InkOf(u, 0)); }
  }

  lemma InkMovesCursor(u: Screen, rune: nat, width: nat)
    requires I.Safe(u) && (width == 1 || width == 2) && !u.cur.pending
    ensures
      var t := Advance(Ink(u, rune, width));
      var last := u.cur.x + width - 1;
      && t.cur == (if last < LastColumn(u, last) then Cursor(u.cur.y, last + 1, false)
                   else Cursor(u.cur.y, Min(LastColumn(u, last), u.w - 1), u.modes.autoWrap))
      && t == u.(cells := t.cells, cur := t.cur, lastRune := rune, lastStyle := u.pen.style)
  {}

  /** One printed glyph, at every width: its cell, for a wide one the cell after it, and
      every other cell as it was but for insertion. */
  lemma GlyphCells(s: Screen, rune: nat, width: nat, y: nat, x: nat)
    requires I.Safe(s) && (width == 1 || width == 2) && PrintsHere(s, width) && y < s.h && x < s.w
    ensures
      var t := PutGlyph(s, rune, width);
      Seen(t, y, x) ==
        if y == s.cur.y && x == s.cur.x then InkOf(s, rune)
        else if width == 2 && y == s.cur.y && x == s.cur.x + 1 then InkOf(s, 0)
        else Pushed(s, width, y, x)
  {
    PutHere(s, rune, width);
    OpenedKeeps(s, width);
    InsertedCells(s, width, y, x);
    InkedCells(Opened(s, width), rune, width, y, x);
  }

  /** The cursor stands past the glyph, or on the edge with the wrap deferred where autowrap
      is on; nothing but cells, cursor and the rune to repeat has changed. */
  lemma GlyphMovesCursor(s: Screen, rune: nat, width: nat)
    requires I.Safe(s) && (width == 1 || width == 2) && PrintsHere(s, width)
    ensures
      var t := PutGlyph(s, rune, width);
      var last := s.cur.x + width - 1;
      && t.cur == (if last < LastColumn(s, last) then Cursor(s.cur.y, last + 1, false)
                   else Cursor(s.cur.y, Min(LastColumn(s, last), s.w - 1), s.modes.autoWrap))
      && t == s.(cells := t.cells, cur := t.cur, lastRune := rune, lastStyle := s.pen.style)
  {
    PutHere(s, rune, width);
    OpenedKeeps(s, width);
    InkMovesCursor(Opened(s, width), rune, width);
  }

  /** A rune of no width prints nothing. */
  lemma NoWidthNoGlyph(s: Screen, rune: nat)
    ensures PutGlyph(s, rune, 0) == s
  {}

  /** A deferred wrap is made good before anything else: at the first column open to it, on
      the next row, or on the same one when that is the region's last and scrolls. */
  lemma DeferredWrapFirst(s: Screen, rune: nat, width: nat)
    requires I.Safe(s) && s.cur.pending && (width == 1 || width == 2)
    ensures
      var t := WrapLine(s);
      && PutGlyph(s, rune, width) == PutGlyph(t, rune, width) && !t.cur.pending
      && t.cur.x == (if s.margins.lr && s.margins.left <= s.cur.x <= s.margins.right then s.margins.left else 0)
      && t.cur.y == if s.cur.y >= s.margins.bottom then s.margins.bottom else s.cur.y + 1
  {
    ScrollFrame(s.(cur := Cursor(s.cur.y + 1, WrapColumn(s), false)));
    assert PutWrapped(s, width) == PutWrapped(WrapLine(s), width);
  }

  // --- erasing -----------------------------------------------------------------------------

  /** Before the cursor, after it, in reading order. */
  predicate Before(s: Screen, y: int, x: int) { y < s.cur.y || (y == s.cur.y && x < s.cur.x) }

  predicate Past(s: Screen, y: int, x: int) { y > s.cur.y || (y == s.cur.y && x > s.cur.x) }

  /** What an erase leaves alone: guarded cells, and if it is selective protected ones too. */
  predicate Kept(c: Cell, selective: bool) { c.isoProtected || (selective && c.decProtected) }

  function ErasedTo(s: Screen, selective: bool, reached: bool, y: int, x: int): Cell {
    if reached && !Kept(Seen(s, y, x), selective) then Vacant(s) else Seen(s, y, x)
  }

  lemma EraseBoxCells(s: Screen, b: Box, m: Spare, y: nat, x: nat)
    requires I.Safe(s) && y < s.h && x < s.w
    ensures Seen(EraseBox(s, b, m), y, x) ==
            if Inside(b, y, x) && !Spares(m, Seen(s, y, x)) then Vacant(s) else Seen(s, y, x)
  {
    ErasedCells(s.cells, s.h, s.w, b, m, PenBlank(s));
  }

  /** From the cursor on: nothing before it changes, and nothing that is kept. */
  lemma EraseBelowCells(s: Screen, selective: bool, y: nat, x: nat)
    requires I.Safe(s) && y < s.h && x < s.w
    ensures Seen(EraseDisplay(s, 0, selective), y, x) == ErasedTo(s, selective, !Before(s, y, x), y, x)
    ensures OnlyCells(s, EraseDisplay(s, 0, selective))
  {
    var m := if selective then SpareBoth else SpareIso;
    var row := Box(s.cur.y, s.cur.x, s.cur.y, s.w - 1);
    EraseBoxCells(s, row, m, y, x);
    I.EraseKeeps(s, row, m);
    EraseBoxCells(EraseBox(s, row, m), Box(s.cur.y + 1, 0, s.h - 1, s.w - 1), m, y, x);
  }

  /** Up to the cursor, its own cell included. */
  lemma EraseAboveCells(s: Screen, selective: bool, y: nat, x: nat)
    requires I.Safe(s) && y < s.h && x < s.w
    ensures Seen(EraseDisplay(s, 1, selective), y, x) == ErasedTo(s, selective, !Past(s, y, x), y, x)
    ensures OnlyCells(s, EraseDisplay(s, 1, selective))
  {
    var m := if selective then SpareBoth else SpareIso;
    var above := Box(0, 0, s.cur.y - 1, s.w - 1);
    EraseBoxCells(s, above, m, y, x);
    I.EraseKeeps(s, above, m);
    EraseBoxCells(EraseBox(s, above, m), Box(s.cur.y, 0, s.cur.y, s.cur.x), m, y, x);
  }

  /** The whole screen: plainly everything, guarded or not; no row continues another, and
      what had scrolled off and not been taken is dropped. */
  lemma EraseWholeCells(s: Screen, selective: bool, y: nat, x: nat)
    requires I.Safe(s) && y < s.h && x < s.w
    ensures
      var t := EraseDisplay(s, 2, selective);
      && Seen(t, y, x) == (if selective then ErasedTo(s, true, true, y, x) else Vacant(s))
      && t.cur == s.cur && !FlagAt(t.wrapped, y) && t.history.drained == [] && t.history.cleared == s.history.cleared
  {
    EraseBoxCells(s, WholeScreen(s), if selective then SpareBoth else SpareNone, y, x);
  }

  /** The history alone. */
  lemma EraseSavedLines(s: Screen, selective: bool)
    ensures EraseDisplay(s, 3, selective) == s.(history := History([], [], true))
  {}

  /** Erasing on from the cursor and up to it comes to erasing the whole screen, where
      nothing is guarded. */
  lemma ErasesAddUp(s: Screen, y: nat, x: nat)
    requires I.Safe(s) && y < s.h && x < s.w && !Seen(s, y, x).isoProtected
    ensures Seen(EraseDisplay(EraseDisplay(s, 0, false), 1, false), y, x) == Seen(EraseDisplay(s, 2, false), y, x)
  {
    I.EraseDisplayKeeps(s, 0, false);
    EraseBelowCells(s, false, y, x);
    EraseAboveCells(EraseDisplay(s, 0, false), false, y, x);
    EraseWholeCells(s, false, y, x);
  }

  /** The same on the cursor's row alone. */
  lemma EraseLineCells(s: Screen, mode: nat, selective: bool, y: nat, x: nat)
    requires I.Safe(s) && y < s.h && x < s.w && mode <= 2
    ensures Seen(EraseLine(s, mode, selective), y, x) ==
            ErasedTo(s, selective, y == s.cur.y && (if mode == 0 then x >= s.cur.x else if mode == 1 then x <= s.cur.x else true), y, x)
    ensures OnlyCells(s, EraseLine(s, mode, selective))
  {
    var m := if selective then SpareBoth else SpareIso;
    EraseBoxCells(s, Box(s.cur.y, if mode == 0 then s.cur.x else 0, s.cur.y, if mode == 1 then s.cur.x else s.w - 1), m, y, x);
  }

  /** Characters from the cursor on, as many as asked or to the end of the row. */
  lemma EraseCharsCells(s: Screen, n: nat, y: nat, x: nat)
    requires I.Safe(s) && y < s.h && x < s.w && n >= 1
    ensures Seen(EraseChars(s, n), y, x) == ErasedTo(s, false, y == s.cur.y && s.cur.x <= x < s.cur.x + n, y, x)
    ensures OnlyCells(s, EraseChars(s, n))
  {
    EraseBoxCells(s, Box(s.cur.y, s.cur.x, s.cur.y, Min(s.cur.x + n - 1, s.w - 1)), SpareIso, y, x);
  }

  /** The sequences that ask for these: J, K and X, and J and K with a question mark. */
  lemma DisplayErases(s: Screen, env: Env, mode: nat)
    ensures Csi(s, env, [mode], 'J') == EraseDisplay(s, mode, false)
  {}

  lemma PlainlyErasesBelow(s: Screen, env: Env)
    ensures Csi(s, env, [], 'J') == EraseDisplay(s, 0, false)
  {}

  lemma LineErases(s: Screen, env: Env, mode: nat)
    ensures Csi(s, env, [mode], 'K') == EraseLine(s, mode, false)
  {}

  lemma CharsErases(s: Screen, env: Env, n: nat)
    requires n >= 1
    ensures Csi(s, env, [n], 'X') == EraseChars(s, n)
  {}

  lemma SelectiveDisplayErases(s: Screen, env: Env, mode: nat)
    ensures DispatchCsi(s, env, [[mode]], [], '?' as int, 'J' as int) == EraseDisplay(s, mode, true)
  {}

  lemma SelectiveLineErases(s: Screen, env: Env, mode: nat)
    ensures DispatchCsi(s, env, [[mode]], [], '?' as int, 'K' as int) == EraseLine(s, mode, true)
  {}
}
