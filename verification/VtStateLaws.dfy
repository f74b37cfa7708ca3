/** What is saved comes back, what is set reads back, and what a reset or a resize leaves:
    cursors, margins, modes, character sets, protection, the alternate screen. */
module VtStateLaws {
  import opened Prelude
  import opened Sgr
  import opened VtCells
  import opened VtScreen
  import opened VtStream
  import opened VtLaws
  import opened VtEditLaws
  import opened VtMotionLaws
  import I = VtInvariant
  import P = Parser

  // --- saved cursors -------------------------------------------------------------------------

  /** All a saved cursor holds: place, deferred wrap, style, protection, character sets and
      origin mode. Links, guarding and a pending single shift are not among it. */
  predicate SameCursor(s: Screen, t: Screen) {
    && t.cur == s.cur && t.pen.style == s.pen.style && t.pen.decProtected == s.pen.decProtected
    && t.charsets.sets == s.charsets.sets && t.charsets.gl == s.charsets.gl && t.modes.origin == s.modes.origin
  }

  /** DECRC on any screen of the size and kind that DECSC was given on, while the slot is as
      it left it: the cursor is back, and nothing else has moved. */
  lemma RestoreAfterSave(s: Screen, t: Screen)
    requires I.Safe(s) && t.h == s.h && t.w == s.w && t.alt.active == s.alt.active && t.saves == Esc(s, '7').saves
    ensures
      var u := Esc(t, '8');
      && SameCursor(s, u)
      && u == t.(cur := u.cur, pen := t.pen.(style := u.pen.style, decProtected := u.pen.decProtected),
                 charsets := t.charsets.(sets := u.charsets.sets, gl := u.charsets.gl), modes := t.modes.(origin := u.modes.origin))
  {}

  /** Saving changes nothing else, and on one screen nothing of the other's slot. */
  lemma SaveTouchesOneSlot(s: Screen)
    ensures
      var t := Esc(s, '7');
      && t == s.(saves := t.saves) && t.saves.modes == s.saves.modes
      && (if s.alt.active then t.saves.main == s.saves.main else t.saves.alt == s.saves.alt)
  {}

  /** With nothing saved, the cursor goes home. */
  lemma RestoreWithoutSave(s: Screen)
    requires (if s.alt.active then s.saves.alt else s.saves.main) == None
    ensures MovedTo(s, Esc(s, '8'), 0, 0)
  {}

  /** SCOSC and SCORC are the same two, where the side margins are off. */
  lemma SavesBySequence(s: Screen, env: Env)
    ensures !s.margins.lr ==> Csi(s, env, [], 's') == Esc(s, '7')
  {}

  lemma RestoresBySequence(s: Screen, env: Env)
    ensures Csi(s, env, [], 'u') == Esc(Settled(s), '8')
  {}

  // --- margins -------------------------------------------------------------------------------

  /** DECSTBM: rows `top` to `bottom`, counted from 1 and cut to the screen, if that is more
      than one row; the cursor goes home. */
  lemma SetsRegion(s: Screen, env: Env, top: nat, bottom: nat)
    requires I.Safe(s) && top >= 1 && bottom >= 1
    ensures
      var t := Csi(s, env, [top, bottom], 'r');
      if top < Min(bottom, s.h) then
        && t.margins == s.margins.(top := top - 1, bottom := Min(bottom, s.h) - 1)
        && t == s.(margins := t.margins, cur := t.cur)
        && t.cur == (if s.modes.origin then Cursor(top - 1, LeftColumn(s), false) else Cursor(0, 0, false))
      else t == s
  {}

  lemma WholeRegionPlainly(s: Screen, env: Env)
    requires I.Safe(s) && s.h > 1
    ensures Csi(s, env, [], 'r').margins == s.margins.(top := 0, bottom := s.h - 1)
  {}

  /** DECSLRM likewise, where side margins are on. */
  lemma SetsSideMargins(s: Screen, env: Env, left: nat, right: nat)
    requires I.Safe(s) && left >= 1 && right >= 1 && s.margins.lr
    ensures
      var t := Csi(s, env, [left, right], 's');
      if left < Min(right, s.w) then
        && t.margins == s.margins.(left := left - 1, right := Min(right, s.w) - 1)
        && t == s.(margins := t.margins, cur := t.cur)
        && t.cur == (if s.modes.origin then Cursor(s.margins.top, left - 1, false) else Cursor(0, 0, false))
      else t == s
  {}

  // --- modes ---------------------------------------------------------------------------------

  /** The modes that read back. */
  predicate ReadsBack(s: Screen, mode: nat) {
    mode in {6, 7, 45, 95} || (mode == 69 && s.modes.level >= 64) || (IsAltMode(mode) && I.AltOk(s.alt))
  }

  lemma ModeReadsBack(s: Screen, mode: nat, on: bool)
    requires ReadsBack(s, mode)
    ensures ModeIsSet(ApplyMode(s, mode, on), mode) == on
  {}

  /** Setting one leaves the others as they read. */
  lemma OtherModesKeep(s: Screen, mode: nat, other: nat, on: bool)
    requires mode in {6, 7, 45, 69, 95} || IsAltMode(mode)
    requires other != mode && !(IsAltMode(mode) && IsAltMode(other))
    ensures ModeIsSet(ApplyMode(s, mode, on), other) == ModeIsSet(s, other)
  {}

  /** One mode, as the sequence gives it. */
  function Private(s: Screen, env: Env, mode: nat, f: Final): Screen {
    DispatchCsi(s, env, [[mode]], [], '?' as int, f as int)
  }

  lemma SetsMode(s: Screen, env: Env, mode: nat)
    ensures Private(s, env, mode, 'h') == ApplyMode(s, mode, true)
  {
    OneMode(s, mode, true);
    assert Values([[mode]]) == [mode];
  }

  lemma ResetsMode(s: Screen, env: Env, mode: nat)
    ensures Private(s, env, mode, 'l') == ApplyMode(s, mode, false)
  {
    OneMode(s, mode, false);
    assert Values([[mode]]) == [mode];
  }

  lemma OneMode(s: Screen, mode: nat, on: bool)
    ensures ApplyModes(s, [mode], on) == ApplyMode(s, mode, on)
  {
    assert [mode][1..] == [];
  }

  /** A mode remembered and recalled reads as it did, whatever was done to it between. */
  lemma RecalledModeReadsBack(s: Screen, t: Screen, mode: nat)
    requires ReadsBack(t, mode) && t.saves.modes == RememberModes(s, [mode]).saves.modes
    ensures ModeIsSet(RecallModes(t, [mode]), mode) == ModeIsSet(s, mode)
  {
    assert [mode][1..] == [];
    assert Remembered(t, mode) == ModeIsSet(s, mode);
    ModeReadsBack(t, mode, Remembered(t, mode));
    assert RecallModes(t, [mode]) == ApplyMode(t, mode, Remembered(t, mode));
  }

  /** Origin mode moves the cursor to its page's first cell, either way. */
  lemma OriginModeHomes(s: Screen, on: bool)
    ensures
      var t := ApplyMode(s, 6, on);
      t == s.(modes := s.modes.(origin := on), cur := Cursor(if on then s.margins.top else 0, if on then LeftColumn(s) else 0, s.cur.pending))
  {}

  /** Insert mode and new-line mode are set and reset by the plain sequences. */
  lemma AnsiModeReads(s: Screen, env: Env, on: bool)
    ensures Csi(s, env, [4], if on then 'h' else 'l') == s.(modes := s.modes.(insert := on))
  {
    assert Values(Groups1([4])) == [4];
    assert [4][1..] == [];
  }

  lemma NewLineModeReads(s: Screen, env: Env, on: bool)
    ensures Csi(s, env, [20], if on then 'h' else 'l') == s.(modes := s.modes.(newLine := on))
  {
    assert Values(Groups1([20])) == [20];
    assert [20][1..] == [];
  }

  /** DECCOLM: margins and cursor at their start either way, and every cell blank unless
      mode 95 forbids it. */
  lemma ColumnModeCells(s: Screen, on: bool, y: nat, x: nat)
    requires I.Safe(s) && y < s.h && x < s.w
    ensures
      var t := ApplyMode(s, 3, on);
      && t.cur == Cursor(0, 0, false) && t.margins == Margins(0, s.h - 1, 0, s.w - 1, false)
      && Seen(t, y, x) == if s.modes.noClear && s.modes.level >= 65 then Seen(s, y, x) else Vacant(s)
  {
    var t := s.(margins := FullMargins(s.h, s.w), cur := Cursor(0, 0, false));
    EraseBoxCells(t, WholeScreen(t), SpareNone, y, x);
  }

  // --- resets --------------------------------------------------------------------------------

  /** RIS: a new screen of the same size, but for the record that history was erased, the
      conformance level, the modes remembered and the rune to repeat. */
  lemma HardResetIsNew(s: Screen)
    requires I.Safe(s)
    ensures Esc(s, 'c') == New(s.h, s.w).(history := History([], [], true), modes := PLAIN_MODES.(level := s.modes.level),
                             saves := Saves(None, None, s.saves.modes), lastRune := s.lastRune, lastStyle := s.lastStyle)
  {
    var t := Esc(s, 'c');
    forall y: nat, x: nat | y < s.h && x < s.w ensures t.cells[y][x] == BLANK { ResetCell(s, y, x); }
    BlankCells(s.h, s.w);
    SameGrid(t.cells, BlankGrid(s.h, s.w), s.h, s.w);
  }

  lemma ResetCell(s: Screen, y: nat, x: nat)
    requires I.Safe(s) && y < s.h && x < s.w
    ensures Esc(s, 'c').cells[y][x] == BLANK
  {
    var t := SoftReset(s);
    ErasedCells(t.cells, t.h, t.w, WholeScreen(t), SpareNone, PenBlank(t));
  }

  /** DECSTR: the pen, margins, saved cursors, modes and sets of a new screen; what is shown,
      where the cursor is, stops, history and the alternate screen stay. */
  lemma SoftResetIsPartlyNew(s: Screen, env: Env)
    requires I.Safe(s)
    ensures
      var t := CsiWith(s, env, [], '!', 'p');
      var n := New(s.h, s.w);
      && t.pen == n.pen && t.margins == n.margins && t.charsets == n.charsets && t.saves == n.saves.(modes := s.saves.modes)
      && t.modes == n.modes.(level := s.modes.level)
      && t.cells == s.cells && t.wrapped == s.wrapped && t.cur == s.cur.(pending := false)
      && t.tabs == s.tabs && t.history == s.history && t.alt == s.alt
  {}

  // --- character sets --------------------------------------------------------------------------

  /** The four designators, each for its own slot. */
  lemma DesignatesOneSet(s: Screen, slot: nat, final: Final, k: nat)
    requires I.Safe(s) && slot < 4 && k < 4
    ensures
      var t := DispatchEsc(s, ['(' as int + slot], final as int);
      && t == s.(charsets := s.charsets.(sets := t.charsets.sets)) && |t.charsets.sets| == 4
      && t.charsets.sets[k] == if k != slot then s.charsets.sets[k] else if final == '0' then GRAPHIC else if final == 'A' then UK else ASCII
  {}

  /** SI and SO choose between the first two. */
  lemma ShiftsChoose(s: Screen, env: Env, b: Byte, out: bool)
    requires I.Safe(s) && s.charsets.shift == NO_SHIFT
    ensures
      var t := Execute(s, if out then 0x0E else 0x0F);
      var rune := Translate(s.charsets.sets[if out then 1 else 0], b);
      && t == s.(charsets := s.charsets.(gl := if out then 1 else 0))
      && PutAscii(t, env, b) == PutGlyph(t, rune, Width(env, rune))
  {}

  /** SS2 and SS3 reach the other two for one character. */
  lemma SingleShiftIsOnce(s: Screen, env: Env, b: Byte, third: bool)
    requires I.Safe(s)
    ensures
      var t := Esc(s, if third then 'O' else 'N');
      var rune := Translate(s.charsets.sets[if third then 3 else 2], b);
      PutAscii(t, env, b) == PutGlyph(s.(charsets := s.charsets.(shift := NO_SHIFT)), rune, Width(env, rune))
  {
    var t := Esc(s, if third then 'O' else 'N');
    assert t == s.(charsets := s.charsets.(shift := if third then 3 else 2));
    assert ActiveSet(t.charsets) == s.charsets.sets[if third then 3 else 2];
    assert t.(charsets := t.charsets.(shift := NO_SHIFT)) == s.(charsets := s.charsets.(shift := NO_SHIFT));
  }

  /** The line-drawing set: boxes from j to x, and only 0x5F to 0x7E differ from ASCII. */
  lemma DrawsLines()
    ensures Translate(GRAPHIC, 'j' as int) == 0x2518 && Translate(GRAPHIC, 'k' as int) == 0x2510
    ensures Translate(GRAPHIC, 'l' as int) == 0x250C && Translate(GRAPHIC, 'm' as int) == 0x2514
    ensures Translate(GRAPHIC, 'n' as int) == 0x253C && Translate(GRAPHIC, 'q' as int) == 0x2500
    ensures Translate(GRAPHIC, 't' as int) == 0x251C && Translate(GRAPHIC, 'u' as int) == 0x2524
    ensures Translate(GRAPHIC, 'v' as int) == 0x2534 && Translate(GRAPHIC, 'w' as int) == 0x252C
    ensures Translate(GRAPHIC, 'x' as int) == 0x2502 && Translate(GRAPHIC, '_' as int) == SPACE
    ensures forall b: Byte :: (b < 0x5F || b > 0x7E ==> Translate(GRAPHIC, b) == b) && Translate(ASCII, b) == b
    ensures forall b: Byte :: Translate(UK, b) == if b == '#' as int then 0xA3 else b
  {}

  // --- protection ------------------------------------------------------------------------------

  /** What is printed between SPA and EPA is guarded from every plain erase of the display
      but the whole one. */
  lemma GuardedSurvives(s: Screen, rune: nat, mode: nat)
    requires I.Safe(s) && PrintsHere(s, 1) && mode <= 1
    ensures
      var t := PutGlyph(Esc(s, 'V'), rune, 1);
      Seen(EraseDisplay(t, mode, false), s.cur.y, s.cur.x) == Seen(t, s.cur.y, s.cur.x) && Seen(t, s.cur.y, s.cur.x).ch == rune
  {
    var v := Esc(s, 'V');
    I.SameFrameKeeps(s, v);
    GlyphCells(v, rune, 1, s.cur.y, s.cur.x);
    I.PutKeeps(v, rune, 1);
    EraseBelowCells(PutGlyph(v, rune, 1), false, s.cur.y, s.cur.x);
    EraseAboveCells(PutGlyph(v, rune, 1), false, s.cur.y, s.cur.x);
  }

  lemma GuardEnds(s: Screen)
    ensures Esc(Esc(s, 'V'), 'W') == s.(pen := s.pen.(isoProtected := false))
    ensures Execute(s, 0x96) == Esc(s, 'V') && Execute(s, 0x97) == Esc(s, 'W')
  {}

  /** DECSCA 1 protects what is printed from selective erases; 0 and 2 end it. */
  lemma ProtectsSelectively(s: Screen, env: Env, p: nat)
    ensures CsiWith(s, env, [p], '"', 'q') == s.(pen := s.pen.(decProtected := p == 1))
  {}

  // --- resizing --------------------------------------------------------------------------------

  /** How far the old contents have moved down: a taller alternate screen grows above them. */
  function Lowered(s: Screen, rows: nat): nat { if s.alt.active && rows > s.h then rows - s.h else 0 }

  /** Every cell there is room for is where it was, or that far down; new ones are blank. */
  lemma ResizeKeepsCells(s: Screen, rows: nat, cols: nat, y: nat, x: nat)
    requires I.Safe(s) && 1 <= rows && 1 <= cols && y < rows && x < cols
    ensures
      var t := Resize(s, rows, cols);
      && t.h == rows && t.w == cols && Sized(t.cells, rows, cols)
      && Seen(t, y, x) == if Lowered(s, rows) <= y < Lowered(s, rows) + s.h && x < s.w then Seen(s, y - Lowered(s, rows), x) else BLANK
  {
    RefitCells(s.cells, rows, cols, Lowered(s, rows));
  }

  /** The cursor stays on its own cell exactly when that cell is still there; or goes to the
      last row and column there are. Margins are those of the whole new screen. */
  lemma ResizeKeepsCursor(s: Screen, rows: nat, cols: nat)
    requires I.Safe(s) && 1 <= rows && 1 <= cols
    ensures
      var t := Resize(s, rows, cols);
      && (s.cur.y < rows && s.cur.x < cols ==>
            t.cur == s.cur.(y := s.cur.y + Lowered(s, rows)) && Seen(t, t.cur.y, t.cur.x) == Seen(s, s.cur.y, s.cur.x))
      && (s.cur.y >= rows ==> t.cur.y == rows - 1) && (s.cur.x >= cols ==> t.cur.x == cols - 1)
      && t.margins == Margins(0, rows - 1, 0, cols - 1, s.margins.lr)
  {
    if s.cur.y < rows && s.cur.x < cols { ResizeKeepsCells(s, rows, cols, s.cur.y + Lowered(s, rows), s.cur.x); }
  }

  /** Tab stops stay where there are still columns, and new columns have the default ones. */
  lemma ResizeKeepsStops(s: Screen, rows: nat, cols: nat, x: nat)
    requires I.Safe(s) && 1 <= rows && 1 <= cols && x < cols
    ensures IsStop(Resize(s, rows, cols), x) <==> if x < s.w then IsStop(s, x) else x % 8 == 0
  {}

  // --- the alternate screen ---------------------------------------------------------------------

  /** Mode 47 leaves what was on the alternate screen for the next visit by 47 or 1047; the
      other modes, and a visit by 1049, start it blank. */
  lemma AlternateContentsKept(s: Screen, left: nat, entered: nat)
    requires I.Safe(s) && s.alt.active && IsAltMode(left) && IsAltMode(entered)
    ensures
      var t := ApplyMode(ApplyMode(s, left, false), entered, true);
      t.alt.active && t.cells == if left == 47 && entered != 1049 then s.cells else BlankGrid(s.h, s.w)
  {}

  /** Entering shows whole rows, whatever the region was; 1049 also homes the cursor and
      resets the pen's style, the other two leave both. Entering again does nothing. */
  lemma EnteringAlternate(s: Screen, mode: nat)
    requires I.Safe(s) && IsAltMode(mode)
    ensures
      var t := ApplyMode(s, mode, true);
      if s.alt.active then t == s
      else
        && t.alt.active && t.margins == s.margins.(top := 0, bottom := s.h - 1) && t.pen.link == []
        && (if mode == 1049 then t.cur.y == 0 && t.cur.x == 0 && t.pen.style == PLAIN else t.cur == s.cur && t.pen.style == s.pen.style)
        && !FlagAt(t.wrapped, t.cur.y)
  {}

  /** Leaving it, rows that scrolled off it and were not taken are dropped. */
  lemma LeavingAlternateDropsDrained(s: Screen, mode: nat)
    requires IsAltMode(mode)
    ensures ApplyMode(s, mode, false).history.drained == []
  {}

  /** A visit that sees a resize: the main screen's cells come back where there is room for
      them, and by 1049 its cursor, on its own cell or the nearest there is. */
  lemma MainScreenThroughResize(s: Screen, rows: nat, cols: nat, y: nat, x: nat)
    requires I.Safe(s) && s.alt.active && 1 <= rows && 1 <= cols && y < rows && x < cols
    requires Sized(s.alt.saved.value.cells, s.h, s.w)
    ensures
      var m := s.alt.saved.value;
      var t := ExitAlt(Resize(s, rows, cols), 1049);
      && t.h == rows && t.w == cols && Seen(t, y, x) == At(m.cells, y, x)
      && t.cur.y == Min(m.y, rows - 1) && t.cur.x == Min(m.x, cols - 1) && t.pen.style == m.style
  {
    var m := s.alt.saved.value;
    var r := ResizeSaved(m, rows, cols);
    RefitCells(m.cells, rows, cols, 0);
    RefitCells(r.cells, rows, cols, 0);
  }

  /** The main screen put aside is resized there and then: what a shrink cuts off it is lost
      even if the screen grows again before it comes back. */
  lemma SavedMainIsResized(s: Screen, rows: nat, cols: nat, y: int, x: int)
    requires I.Safe(s) && s.alt.active && 1 <= rows && 1 <= cols && Sized(s.alt.saved.value.cells, s.h, s.w)
    ensures
      var m := s.alt.saved.value;
      var t := Resize(s, rows, cols);
      && t.alt.saved.Some? && Sized(t.alt.saved.value.cells, rows, cols)
      && At(t.alt.saved.value.cells, y, x) == if 0 <= y < rows && 0 <= x < cols then At(m.cells, y, x) else BLANK
  {
    RefitCells(s.alt.saved.value.cells, rows, cols, 0);
  }

  /** Rows that are still there keep their wrap flags on a resize; new ones continue nothing. */
  lemma ResizeKeepsFlags(s: Screen, rows: nat, cols: nat, y: nat)
    requires I.Safe(s) && 1 <= rows && 1 <= cols && y < rows
    ensures FlagAt(Resize(s, rows, cols).wrapped, y) <==> y >= Lowered(s, rows) && FlagAt(s.wrapped, y - Lowered(s, rows))
  {
    assert RefitFlags(s.wrapped, rows, Lowered(s, rows))[y] == FlagAt(s.wrapped, y - Lowered(s, rows));
  }

  // --- the rest --------------------------------------------------------------------------------

  /** Mode 1048 is DECSC and DECRC; mode 69 off takes the side margins back to the edges. */
  lemma ModeSavesCursor(s: Screen)
    ensures ApplyMode(s, 1048, true) == Esc(s, '7') && ApplyMode(s, 1048, false) == Esc(s, '8')
  {}

  lemma SideMarginsOff(s: Screen)
    ensures ApplyMode(s, 69, false).margins == s.margins.(lr := false, left := 0, right := s.w - 1)
  {}

  /** Modes in one sequence take effect in the order they are listed. */
  lemma ModesInOrder(s: Screen, first: nat, second: nat, on: bool)
    ensures ApplyModes(s, [first, second], on) == ApplyMode(ApplyMode(s, first, on), second, on)
  {
    assert [first, second][1..] == [second];
    OneMode(ApplyMode(s, first, on), second, on);
  }

  /** A tab with a wrap deferred does nothing, or under mode 41 tabs from the next line. */
  lemma TabWhenPending(s: Screen)
    requires s.cur.pending
    ensures Execute(ApplyMode(s, 41, false), 0x09) == ApplyMode(s, 41, false)
    ensures var t := ApplyMode(s, 41, true); Execute(t, 0x09) == Tab(NextLine(t)) && !NextLine(t).cur.pending
  {
    var t := ApplyMode(s, 41, true);
    ScrollFrame(t.(cur := Cursor(t.cur.y + 1, WrapColumn(t), false)));
  }

  /** DECSCL; a sequence without a level asks for the highest. */
  lemma SetsLevel(s: Screen, env: Env, level: nat)
    ensures CsiWith(s, env, [level], '"', 'p') == s.(modes := s.modes.(level := if level == 0 then 65 else level))
  {}

  /** A command about links sets what later cells link to, and touches nothing else. */
  lemma LinkCommand(s: Screen, env: Env, payload: seq<Byte>)
    ensures
      var t := Apply(s, env, P.Osc(payload));
      t == s.(pen := s.pen.(link := if env.link(payload).Some? then env.link(payload).value else s.pen.link))
  {}
}
