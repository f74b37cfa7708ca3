/** The screen stays well formed under every byte stream and every resize, with the one
    exception the program has: leaving the alternate screen after a shrink below the
    saved scroll region. */
module VtInvariant {
  import opened Prelude
  import opened Sgr
  import opened VtCells
  import opened VtScreen
  import opened VtStream
  import P = Parser

  // --- the invariant -----------------------------------------------------------------------

  predicate GridOk(s: Screen) { s.h >= 1 && s.w >= 1 && Sized(s.cells, s.h, s.w) && |s.wrapped| == s.h }

  predicate CursorOk(s: Screen) { 0 <= s.cur.y < s.h && 0 <= s.cur.x < s.w }

  predicate MarginsOk(m: Margins, h: nat, w: nat) { 0 <= m.top <= m.bottom < h && 0 <= m.left <= m.right < w }

  predicate TabsOk(s: Screen) { s.tabs.Some? ==> |s.tabs.value| == s.w }

  predicate SetsOk(sets: seq<nat>, gl: nat) { |sets| == 4 && gl < 4 }

  predicate CharsetsOk(c: Charsets) { SetsOk(c.sets, c.gl) && (c.shift == NO_SHIFT || c.shift == 2 || c.shift == 3) }

  predicate SlotOk(o: Option<Slot>) {
    o.Some? ==> o.value.y >= 0 && o.value.x >= 0 && SetsOk(o.value.sets, o.value.gl)
  }

  predicate SavesOk(v: Saves) { SlotOk(v.main) && SlotOk(v.alt) }

  predicate MainOk(m: Main) { m.cells != [] && 0 <= m.top <= m.bottom && m.y >= 0 && m.x >= 0 }

  predicate Rectangular(g: Grid) { g != [] && Sized(g, |g|, |g[0]|) }

  predicate AltOk(a: Alt) {
    && a.active == a.saved.Some?
    && (a.saved.Some? ==> MainOk(a.saved.value))
    && (a.stash.Some? ==> Rectangular(a.stash.value))
  }

  predicate WellFormed(s: Screen) {
    && GridOk(s) && CursorOk(s) && MarginsOk(s.margins, s.h, s.w) && TabsOk(s)
    && CharsetsOk(s.charsets) && SavesOk(s.saves) && AltOk(s.alt)
  }

  /** The region the alternate screen will restore still starts on the screen. */
  predicate SavedTopFits(s: Screen) { s.alt.saved.Some? ==> s.alt.saved.value.top < s.h }

  predicate Safe(s: Screen) { WellFormed(s) && SavedTopFits(s) }

  lemma NewIsSafe(h: nat, w: nat)
    requires h >= 1 && w >= 1
    ensures Safe(New(h, w))
  {}

  // --- scrolling and printing --------------------------------------------------------------------

  lemma ScrollKeeps(s: Screen, top: int, n: int)
    requires Safe(s)
    ensures Safe(ScrollFrom(s, top, n))
  {}

  lemma ScrollUpKeeps(s: Screen, n: nat)
    requires Safe(s)
    ensures Safe(ScrollUpOnce(s)) && Safe(ScrollUpBy(s, n))
    decreases n
  {
    ScrollKeeps(Drain(s), s.margins.top, 1);
    ScrollKeeps(s, s.margins.top, 1);
    if n > 0 { ScrollUpKeeps(ScrollUpOnce(s), n - 1); }
  }

  lemma ScrollDownKeeps(s: Screen, n: nat)
    requires Safe(s)
    ensures Safe(ScrollDownOnce(s)) && Safe(ScrollDownBy(s, n))
    decreases n
  {
    ScrollKeeps(s, s.margins.top, -1);
    if n > 0 { ScrollDownKeeps(ScrollDownOnce(s), n - 1); }
  }

  lemma SameFrameKeeps(s: Screen, t: Screen)
    requires Safe(s) && t.h == s.h && t.w == s.w && t.alt == s.alt
    requires GridOk(t) && CursorOk(t) && MarginsOk(t.margins, t.h, t.w) && TabsOk(t) && CharsetsOk(t.charsets) && SavesOk(t.saves)
    ensures Safe(t)
  {}

  lemma CursorKeeps(s: Screen, c: Cursor)
    requires Safe(s) && 0 <= c.y < s.h && 0 <= c.x < s.w
    ensures Safe(s.(cur := c))
  {}

  lemma NextLineKeeps(s: Screen)
    requires Safe(s)
    ensures Safe(NextLine(s)) && NextLine(s).w == s.w
  {
    var c := Cursor(s.cur.y + 1, WrapColumn(s), false);
    if c.y > s.margins.bottom {
      var up := ScrollUpOnce(s);
      ScrollIgnoresCursor(s, c);
      ScrollFrame(s);
      ScrollUpKeeps(s, 0);
      assert NextLine(s) == up.(cur := c.(y := s.margins.bottom));
      CursorKeeps(up, c.(y := s.margins.bottom));
    } else {
      CursorKeeps(s, c);
    }
  }

  lemma WrapLineKeeps(s: Screen)
    requires Safe(s)
    ensures Safe(WrapLine(s)) && WrapLine(s).w == s.w
  {
    NextLineKeeps(s);
  }

  lemma WriteKeeps(s: Screen, x: int, c: Cell)
    requires Safe(s)
    ensures Safe(VtScreen.Write(s, x, c)) && VtScreen.Write(s, x, c).w == s.w
  {}

  lemma PutWrappedKeeps(s: Screen, width: nat)
    requires Safe(s)
    ensures Safe(PutWrapped(s, width)) && PutWrapped(s, width).w == s.w
  {
    if s.cur.pending { WrapLineKeeps(s); }
    var t := if s.cur.pending then WrapLine(s) else s;
    var blank := Cell(SPACE, t.pen.style, [], false, false);
    WriteKeeps(t, t.cur.x, blank);
    WrapLineKeeps(VtScreen.Write(t, t.cur.x, blank));
  }

  /** Inking a wide glyph may leave the cursor one past the last column. */
  lemma InkKeeps(s: Screen, rune: nat, width: nat)
    requires Safe(s)
    ensures
      var t := Ink(s, rune, width);
      && t.w == s.w && s.cur.x <= t.cur.x <= s.cur.x + 1 && t.cur.y == s.cur.y
      && Safe(t.(cur := s.cur))
  {
    WriteKeeps(s, s.cur.x, InkCell(s, rune));
    var t := VtScreen.Write(s, s.cur.x, InkCell(s, rune)).(lastRune := rune, lastStyle := s.pen.style);
    WriteKeeps(t, s.cur.x + 1, InkCell(s, 0));
  }

  lemma AdvanceKeeps(s: Screen, at: Cursor)
    requires Safe(s.(cur := at)) && s.cur.y == at.y && 0 <= at.x <= s.cur.x <= s.w
    ensures Safe(Advance(s))
  {}

  lemma PutKeeps(s: Screen, rune: nat, width: nat)
    requires Safe(s)
    ensures Safe(PutGlyph(s, rune, width))
  {
    if width != 0 {
      PutWrappedKeeps(s, width);
      var t := PutWrapped(s, width);
      var u := if t.modes.insert then InsertChars(t, width) else t;
      assert Safe(u) by { EditKeeps(t, width); }
      InkKeeps(u, rune, width);
      AdvanceKeeps(Ink(u, rune, width), u.cur);
    }
  }

  lemma {:induction false} RepeatKeeps(s: Screen, rune: nat, width: nat, n: nat)
    requires Safe(s)
    ensures Safe(Repeat(s, rune, width, n))
    decreases n
  {
    if n > 0 {
      PutKeeps(s, rune, width);
      RepeatKeeps(PutGlyph(s, rune, width), rune, width, n - 1);
    }
  }

  // --- editing, motion --------------------------------------------------------------------------

  lemma EditKeeps(s: Screen, n: int)
    requires Safe(s)
    ensures Safe(InsertChars(s, n)) && Safe(DeleteChars(s, n))
    ensures Safe(InsertColumns(s, n)) && Safe(DeleteColumns(s, n))
    ensures Safe(ShiftRows(s, n)) && Safe(ScrollColumns(s, n))
  {}

  lemma LinesKeep(s: Screen, n: int)
    requires Safe(s)
    ensures Safe(InsertLines(s, n)) && Safe(DeleteLines(s, n))
  {
    ScrollKeeps(s, s.cur.y, -n);
    ScrollKeeps(s, s.cur.y, n);
  }

  lemma EraseKeeps(s: Screen, b: Box, m: Spare)
    requires Safe(s)
    ensures Safe(EraseBox(s, b, m))
  {}

  lemma EraseTwiceKeeps(s: Screen, a: Box, b: Box, m: Spare)
    requires Safe(s)
    ensures Safe(EraseBox(EraseBox(s, a, m), b, m))
  {
    EraseKeeps(s, a, m);
    EraseKeeps(EraseBox(s, a, m), b, m);
  }

  lemma HistoryKeeps(s: Screen, wrapped: seq<bool>, history: History)
    requires Safe(s) && |wrapped| == s.h
    ensures Safe(s.(wrapped := wrapped, history := history))
  {}

  lemma EraseDisplayKeeps(s: Screen, mode: nat, selective: bool)
    requires Safe(s)
    ensures Safe(EraseDisplay(s, mode, selective)) && Safe(EraseLine(s, mode, selective))
  {
    var m := if selective then SpareBoth else SpareIso;
    EraseKeeps(s, Box(s.cur.y, s.cur.x, s.cur.y, s.w - 1), m);
    EraseKeeps(s, Box(s.cur.y, 0, s.cur.y, s.cur.x), m);
    EraseKeeps(s, Box(s.cur.y, 0, s.cur.y, s.w - 1), m);
    if mode == 0 {
      EraseTwiceKeeps(s, Box(s.cur.y, s.cur.x, s.cur.y, s.w - 1), Box(s.cur.y + 1, 0, s.h - 1, s.w - 1), m);
    } else if mode == 1 {
      EraseTwiceKeeps(s, Box(0, 0, s.cur.y - 1, s.w - 1), Box(s.cur.y, 0, s.cur.y, s.cur.x), m);
    } else if mode == 2 {
      var all := if selective then SpareBoth else SpareNone;
      EraseKeeps(s, WholeScreen(s), all);
      HistoryKeeps(EraseBox(s, WholeScreen(s), all), ClearFlags(s.h), History([], [], s.history.cleared));
    } else if mode == 3 {
      HistoryKeeps(s, s.wrapped, History([], [], true));
    }
  }

  lemma RectKeeps(s: Screen, ch: nat, b: Box, y: nat, x: nat)
    requires Safe(s)
    ensures Safe(FillRect(s, ch, b)) && Safe(CopyRect(s, b, y, x)) && Safe(AlignmentTest(s))
  {}

  lemma MotionKeeps(s: Screen, y: int, x: int)
    requires Safe(s)
    ensures Safe(Place(s, y, x)) && Safe(MoveTo(s, y, x)) && Safe(ToColumn(s, x)) && Safe(ToScreenRow(s, y))
    ensures Safe(ToLeft(s)) && Safe(CarriageReturn(s)) && Safe(Home(s))
  {}

  lemma BackspaceKeeps(s: Screen, n: nat)
    requires Safe(s)
    ensures Safe(Backspace(s)) && Safe(Backspaces(s, n))
    decreases n
  {
    if n > 0 { BackspaceKeeps(Backspace(s), n - 1); }
  }

  lemma StepsKeep(s: Screen, n: int)
    requires Safe(s)
    ensures Safe(Up(s, n)) && Safe(Down(s, n)) && Safe(Right(s, n)) && Safe(Left(s, n))
  {
    BackspaceKeeps(s, Max(n, 1));
  }

  lemma LineDownKeeps(s: Screen)
    requires Safe(s)
    ensures Safe(LineDown(s))
  {
    ScrollUpKeeps(s, 0);
  }

  lemma ReverseIndexKeeps(s: Screen)
    requires Safe(s)
    ensures Safe(ReverseIndex(s))
  {
    var t := Settled(s);
    SameFrameKeeps(s, t);
    ScrollDownKeeps(t, 0);
    if t.cur.y > 0 { SameFrameKeeps(t, t.(cur := t.cur.(y := t.cur.y - 1))); }
  }

  lemma ColumnIndexKeeps(s: Screen)
    requires Safe(s)
    ensures Safe(BackIndex(s)) && Safe(ForwardIndex(s))
  {
    var t := Settled(s);
    SameFrameKeeps(s, t);
    EditKeeps(t, 1);
    EditKeeps(t, -1);
    if t.cur.x > 0 { SameFrameKeeps(t, t.(cur := t.cur.(x := t.cur.x - 1))); }
    if t.cur.x < t.w - 1 { SameFrameKeeps(t, t.(cur := t.cur.(x := t.cur.x + 1))); }
  }

  lemma NextSetBounds(t: seq<bool>, i: int, w: nat)
    ensures i <= w ==> i <= NextSet(t, i, w) <= w
    decreases w - i
  {}

  lemma PrevSetBounds(t: seq<bool>, i: int)
    ensures 0 <= PrevSet(t, i) <= Max(i, 0)
    decreases i
  {}

  lemma StopsBounds(s: Screen)
    requires Safe(s)
    ensures s.cur.x < NextStop(s) && 0 <= PrevStop(s) <= s.cur.x
  {
    if s.tabs.Some? {
      NextSetBounds(s.tabs.value, s.cur.x + 1, s.w);
      PrevSetBounds(s.tabs.value, s.cur.x - 1);
    }
  }

  lemma TabsKeep(s: Screen, n: nat)
    requires Safe(s)
    ensures Safe(Tab(s)) && Safe(Tabs(s, n))
    decreases n
  {
    StopsBounds(s);
    if n > 0 { TabsKeep(Tab(s), n - 1); }
  }

  lemma BackTabsKeep(s: Screen, n: nat)
    requires Safe(s)
    ensures Safe(BackTabs(s, n))
    decreases n
  {
    StopsBounds(s);
    if n > 0 && PrevStop(s) > 0 { BackTabsKeep(s.(cur := s.cur.(x := PrevStop(s))), n - 1); }
  }

  // --- modes, the alternate screen ---------------------------------------------------------------

  lemma CursorSlotsKeep(s: Screen)
    requires Safe(s)
    ensures Safe(SaveCursor(s)) && Safe(RestoreCursor(s))
  {}

  lemma ResetsKeep(s: Screen)
    requires Safe(s)
    ensures Safe(SoftReset(s)) && Safe(HardReset(s)) && Safe(ColumnMode(s))
  {}

  lemma EnterAltKeeps(s: Screen, mode: nat)
    requires Safe(s)
    ensures Safe(EnterAlt(s, mode))
  {}

  /** Leaving the alternate screen keeps the screen well formed exactly when the saved
      scroll region still starts on the screen. */
  lemma ExitAltKeepsExactly(s: Screen, mode: nat)
    requires WellFormed(s) && s.alt.active
    ensures WellFormed(ExitAlt(s, mode)) <==> s.alt.saved.value.top < s.h
  {}

  lemma AltModeKeeps(s: Screen, mode: nat, on: bool)
    requires Safe(s) && IsAltMode(mode)
    ensures Safe(ApplyMode(s, mode, on))
  {
    if on {
      EnterAltKeeps(s, mode);
    } else if s.alt.active {
      ExitAltKeepsExactly(s, mode);
    }
  }

  lemma ModeKeeps(s: Screen, mode: nat, on: bool)
    requires Safe(s)
    ensures Safe(ApplyMode(s, mode, on))
  {
    if IsAltMode(mode) {
      AltModeKeeps(s, mode, on);
    } else if mode == 3 {
      ResetsKeep(s);
    } else if mode == 1048 {
      CursorSlotsKeep(s);
    } else {
      SameFrameKeeps(s, ApplyMode(s, mode, on));
    }
  }

  lemma {:induction false} ModesKeep(s: Screen, modes: seq<nat>, on: bool)
    requires Safe(s)
    ensures Safe(ApplyModes(s, modes, on))
    decreases |modes|
  {
    if modes != [] {
      ModeKeeps(s, modes[0], on);
      ModesKeep(ApplyMode(s, modes[0], on), modes[1..], on);
    }
  }

  lemma {:induction false} RecallKeeps(s: Screen, modes: seq<nat>)
    requires Safe(s)
    ensures Safe(RecallModes(s, modes))
    decreases |modes|
  {
    if modes != [] {
      ModeKeeps(s, modes[0], Remembered(s, modes[0]));
      RecallKeeps(ApplyMode(s, modes[0], Remembered(s, modes[0])), modes[1..]);
    }
  }

  lemma {:induction false} RememberKeeps(s: Screen, modes: seq<nat>)
    requires Safe(s)
    ensures Safe(RememberModes(s, modes))
    decreases |modes|
  {
    if modes != [] {
      RememberKeeps(s.(saves := s.saves.(modes := s.saves.modes[modes[0] := ModeIsSet(s, modes[0])])), modes[1..]);
    }
  }

  /** A resize keeps the saved region safe exactly when it does not shrink an alternate
      screen to or below the saved scroll top. */
  lemma ResizeKeepsExactly(s: Screen, rows: int, cols: int)
    requires Safe(s)
    ensures WellFormed(Resize(s, rows, cols))
    ensures Safe(Resize(s, rows, cols)) <==> (s.alt.active ==> s.alt.saved.value.top < Max(rows, 1))
  {}

  /** A four-row screen scrolling its last two rows, shrunk to two rows while the
      alternate screen is up, comes back with a region that starts below the screen. */
  lemma DeepShrinkBreaks()
    ensures
      var s := SetScrollRegion(New(4, 2), 2, 3);
      var t := ExitAlt(Resize(EnterAlt(s, 1049), 2, 2), 1049);
      Safe(s) && t.h == 2 && t.margins.top == 2 && !WellFormed(t)
  {
    NewIsSafe(4, 2);
    RegionKeeps(New(4, 2), 2, 3, 0, 0);
    var s := SetScrollRegion(New(4, 2), 2, 3);
    EnterAltKeeps(s, 1049);
    var inside := EnterAlt(s, 1049);
    assert inside.alt.active && inside.alt.saved.value.top == 2;
    ResizeKeepsExactly(inside, 2, 2);
    ExitAltKeepsExactly(Resize(inside, 2, 2), 1049);
  }

  // --- dispatch ----------------------------------------------------------------------------------

  lemma ExecuteKeeps(s: Screen, b: Byte)
    requires Safe(s)
    ensures Safe(Execute(s, b))
  {
    if b == 0x08 {
      BackspaceKeeps(s, 0);
    } else if 0x0A <= b <= 0x0C {
      var t := s.(cur := s.cur.(pending := false, x := if s.modes.newLine then 0 else s.cur.x));
      SameFrameKeeps(s, t);
      LineDownKeeps(t);
    } else if b == 0x0D {
      MotionKeeps(s, 0, 0);
    } else if b == 0x09 {
      if !s.cur.pending {
        TabsKeep(s, 0);
      } else if s.modes.moreFix {
        NextLineKeeps(s);
        TabsKeep(NextLine(s), 0);
      }
    } else {
      SameFrameKeeps(s, Execute(s, b));
    }
  }

  lemma EscKeeps(s: Screen, intermediates: seq<Byte>, final: Byte)
    requires Safe(s)
    ensures Safe(DispatchEsc(s, intermediates, final))
  {
    if intermediates != [] {
      if intermediates[0] == '#' as int {
        RectKeeps(s, 0, Box(0, 0, 0, 0), 0, 0);
      } else {
        SameFrameKeeps(s, Designate(s, intermediates[0], final));
      }
    } else {
      PlainEscKeeps(s, final as char);
    }
  }

  lemma IndexKeeps(s: Screen)
    requires Safe(s)
    ensures Safe(LineDown(Settled(s))) && Safe(CarriageReturn(LineDown(Settled(s))))
  {
    SameFrameKeeps(s, Settled(s));
    LineDownKeeps(Settled(s));
    MotionKeeps(LineDown(Settled(s)), 0, 0);
  }

  lemma StopKeeps(s: Screen, on: bool)
    requires Safe(s)
    ensures Safe(SetStop(s, on))
  {}

  lemma GuardKeeps(s: Screen, on: bool, shift: int)
    requires Safe(s) && (shift == 2 || shift == 3)
    ensures Safe(s.(pen := s.pen.(isoProtected := on))) && Safe(s.(charsets := s.charsets.(shift := shift)))
  {}

  lemma PlainEscKeeps(s: Screen, final: char)
    requires Safe(s)
    ensures Safe(PlainEsc(s, final))
  {
    match final
    case '7' => CursorSlotsKeep(s);
    case '8' => CursorSlotsKeep(s);
    case 'H' => StopKeeps(s, true);
    case 'D' => IndexKeeps(s);
    case 'E' => IndexKeeps(s);
    case 'M' => ReverseIndexKeeps(s);
    case '6' => ColumnIndexKeeps(s);
    case '9' => ColumnIndexKeeps(s);
    case 'V' => GuardKeeps(s, true, 2);
    case 'W' => GuardKeeps(s, false, 2);
    case 'N' => GuardKeeps(s, true, 2);
    case 'O' => GuardKeeps(s, true, 3);
    case 'c' => ResetsKeep(s);
    case _ =>
  }

  lemma CsiMotionKeeps(s: Screen, gs: Groups, f: char)
    requires Safe(s)
    ensures Safe(CsiMotion(s, gs, f))
  {
    var n := Val(gs, 0, 1);
    if f == 'E' {
      StepsKeep(s, n);
      MotionKeeps(Down(s, n), 0, 0);
    } else if f == 'F' {
      StepsKeep(s, n);
      MotionKeeps(Up(s, n), 0, 0);
    } else if f == 'I' {
      TabsKeep(s, n);
    } else if f == 'Z' {
      BackTabsKeep(s, n);
    } else if f in {'A', 'B', 'C', 'D', 'e'} {
      StepsKeep(s, n);
    } else {
      CsiPlaceKeeps(s, gs, f);
    }
  }

  lemma CsiPlaceKeeps(s: Screen, gs: Groups, f: char)
    requires Safe(s) && f !in {'A', 'B', 'C', 'D', 'E', 'F', 'I', 'Z', 'e'}
    ensures Safe(CsiMotion(s, gs, f))
  {
    var n := Val(gs, 0, 1);
    if f == 'a' {
      MotionKeeps(s, s.cur.y, s.cur.x + n);
    } else if f == 'H' || f == 'f' {
      MotionKeeps(s, n - 1, Val(gs, 1, 1) - 1);
    } else {
      MotionKeeps(s, n - 1, n - 1);
    }
  }

  lemma CsiEditKeeps(s: Screen, env: Env, gs: Groups, marker: Byte, f: char)
    requires Safe(s)
    ensures Safe(CsiEdit(s, env, gs, marker, f))
  {
    var n := Val(gs, 0, 1);
    match f
    case 'J' => EraseDisplayKeeps(s, Val(gs, 0, 0), marker == '?' as int);
    case 'K' => EraseDisplayKeeps(s, Val(gs, 0, 0), marker == '?' as int);
    case '@' => EditKeeps(s, n);
    case 'P' => EditKeeps(s, n);
    case 'L' => LinesKeep(s, n);
    case 'M' => LinesKeep(s, n);
    case 'X' => EraseKeeps(s, Box(s.cur.y, s.cur.x, s.cur.y, Min(s.cur.x + n - 1, s.w - 1)), SpareIso);
    case 'b' =>
      var t := s.(pen := s.pen.(style := s.lastStyle));
      SameFrameKeeps(s, t);
      RepeatKeeps(t, s.lastRune, Width(env, s.lastRune), n);
    case _ =>
  }

  lemma RegionKeeps(s: Screen, top: int, bottom: int, left: int, right: int)
    requires Safe(s) && 0 <= top && bottom < s.h && 0 <= left && right < s.w
    ensures Safe(SetScrollRegion(s, top, bottom)) && Safe(SetSideMargins(s, left, right))
  {}

  lemma CsiScrollKeeps(s: Screen, gs: Groups, marker: Byte, f: char)
    requires Safe(s)
    ensures Safe(CsiScroll(s, gs, marker, f))
  {
    var n := Min(Val(gs, 0, 1), RegionHeight(s));
    var low := Max(Val(gs, 0, 1) - 1, 0);
    match f
    case 'S' => ScrollUpKeeps(s, n);
    case 'T' => ScrollDownKeeps(s, n);
    case '^' => ScrollDownKeeps(s, n);
    case 'r' =>
      RegionKeeps(s, low, Min(Val(gs, 1, s.h) - 1, s.h - 1), 0, 0);
      RecallKeeps(s, Values(gs));
    case 's' =>
      RegionKeeps(s, 0, 0, low, Min(Val(gs, 1, s.w) - 1, s.w - 1));
      RememberKeeps(s, Values(gs));
      CursorSlotsKeep(s);
    case 'u' => CursorSlotsKeep(s);
    case _ =>
  }

  lemma SwitchModesKeeps(s: Screen, gs: Groups, marker: Byte, on: bool)
    requires Safe(s)
    ensures Safe(SwitchModes(s, gs, marker, on))
  {
    if marker == '?' as int {
      ModesKeep(s, Values(gs), on);
    } else {
      SameFrameKeeps(s, SwitchModes(s, gs, marker, on));
    }
  }

  lemma CsiModesKeep(s: Screen, gs: Groups, marker: Byte, f: char)
    requires Safe(s)
    ensures Safe(CsiModes(s, gs, marker, f))
  {
    if f == 'h' || f == 'l' {
      SwitchModesKeeps(s, gs, marker, f == 'h');
    } else {
      SameFrameKeeps(s, CsiModes(s, gs, marker, f));
    }
  }

  lemma PenAndLevelKeep(s: Screen, pen: VtScreen.Pen, modes: Modes)
    requires Safe(s)
    ensures Safe(s.(pen := pen)) && Safe(s.(modes := modes))
  {}

  lemma CsiIntermediateKeeps(s: Screen, gs: Groups, i: char, f: char)
    requires Safe(s)
    ensures Safe(CsiIntermediate(s, gs, i, f))
  {
    var n := Val(gs, 0, 1);
    if i == ' ' {
      EditKeeps(s, if f == '@' then n else -(n as int));
    } else if i == '$' {
      RectanglesKeep(s, gs, f);
    } else if i == '\'' {
      EditKeeps(s, n);
    } else if i == '!' {
      ResetsKeep(s);
    } else if i == '"' {
      PenAndLevelKeep(s, s.pen.(decProtected := Val(gs, 0, 0) == 1), s.modes.(level := Val(gs, 0, 65)));
    }
  }

  lemma RectanglesKeep(s: Screen, gs: Groups, f: char)
    requires Safe(s)
    ensures Safe(CsiRectangle(s, gs, f))
  {
    var b := RectBox(s, Val(gs, 0, 0), Val(gs, 1, 0), Val(gs, 2, 0), Val(gs, 3, 0));
    if f == 'x' {
      RectKeeps(s, Val(gs, 0, 0), RectBox(s, Val(gs, 1, 0), Val(gs, 2, 0), Val(gs, 3, 0), Val(gs, 4, 0)), 0, 0);
    } else if f == 'v' {
      RectKeeps(s, 0, b, Val(gs, 5, 0), Val(gs, 6, 0));
    } else if f == 'z' {
      EraseKeeps(s, b, SpareNone);
    } else if f == '{' {
      EraseKeeps(s, b, SpareDec);
    }
  }

  lemma CsiKeeps(s: Screen, env: Env, gs: Groups, intermediates: seq<Byte>, marker: Byte, final: Byte)
    requires Safe(s)
    ensures Safe(DispatchCsi(s, env, gs, intermediates, marker, final))
  {
    var t := if final as char in CLEARS_WRAP then s.(cur := s.cur.(pending := false)) else s;
    var f := final as char;
    if intermediates != [] && Consumes(intermediates[0]) {
      CsiIntermediateKeeps(t, gs, intermediates[0] as char, f);
    } else {
      CsiMotionKeeps(t, gs, f);
      CsiEditKeeps(t, env, gs, marker, f);
      CsiScrollKeeps(t, gs, marker, f);
      CsiModesKeep(t, gs, marker, f);
    }
  }

  /** Every event keeps the invariant. */
  lemma ApplyKeeps(s: Screen, env: Env, e: P.Event)
    requires Safe(s)
    ensures Safe(Apply(s, env, e))
  {
    match e
    case Ascii(b) =>
      var rune := Translate(ActiveSet(s.charsets), b);
      PutKeeps(s.(charsets := s.charsets.(shift := if s.charsets.shift >= 2 then NO_SHIFT else s.charsets.shift)),
               rune, Width(env, rune));
    case Glyph(rune) => PutKeeps(s, rune, Width(env, rune));
    case Exec(b) => ExecuteKeeps(s, b);
    case Esc(i, f) => EscKeeps(s, i, f);
    case Csi(gs, i, m, f) => CsiKeeps(s, env, gs, i, m, f);
    case Osc(_) =>
    case DcsHook(_, _) =>
    case DcsPut(_) =>
    case DcsUnhook =>
  }

  lemma {:induction false} ApplyAllKeeps(s: Screen, env: Env, events: seq<P.Event>)
    requires Safe(s)
    ensures Safe(ApplyAll(s, env, events))
    decreases |events|
  {
    if events != [] {
      ApplyKeeps(s, env, events[0]);
      ApplyAllKeeps(Apply(s, env, events[0]), env, events[1..]);
    }
  }

  // --- whole runs --------------------------------------------------------------------------------

  datatype Input = Output(bytes: seq<Byte>) | ResizeTo(rows: int, cols: int)

  function Take(t: Terminal, env: Env, i: Input): Terminal {
    match i
    case Output(bytes) => VtStream.Write(t, env, bytes)
    case ResizeTo(rows, cols) => t.(screen := Resize(t.screen, rows, cols))
  }

  function Run(t: Terminal, env: Env, inputs: seq<Input>): Terminal
    decreases |inputs|
  {
    if inputs == [] then t else Run(Take(t, env, inputs[0]), env, inputs[1..])
  }

  /** No resize of the run shrinks an alternate screen to or below the saved scroll top. */
  predicate NoDeepShrink(t: Terminal, env: Env, inputs: seq<Input>)
    decreases |inputs|
  {
    inputs == [] ||
    (&& (inputs[0].ResizeTo? && t.screen.alt.saved.Some? ==> t.screen.alt.saved.value.top < Max(inputs[0].rows, 1))
     && NoDeepShrink(Take(t, env, inputs[0]), env, inputs[1..]))
  }

  /** A terminal fed anything at all, and resized in any way the run allows, is well
      formed at the end. */
  lemma {:induction false} RunsStaySafe(t: Terminal, env: Env, inputs: seq<Input>)
    requires Safe(t.screen) && NoDeepShrink(t, env, inputs)
    ensures Safe(Run(t, env, inputs).screen)
    decreases |inputs|
  {
    if inputs != [] {
      match inputs[0] {
        case Output(bytes) => ApplyAllKeeps(t.screen, env, P.FeedAll(t.parser, bytes).events);
        case ResizeTo(rows, cols) => ResizeKeepsExactly(t.screen, rows, cols);
      }
      RunsStaySafe(Take(t, env, inputs[0]), env, inputs[1..]);
    }
  }

  lemma TerminalsStayWellFormed(h: nat, w: nat, env: Env, inputs: seq<Input>)
    requires h >= 1 && w >= 1 && NoDeepShrink(Terminal(P.START, New(h, w)), env, inputs)
    ensures WellFormed(Run(Terminal(P.START, New(h, w)), env, inputs).screen)
  {
    NewIsSafe(h, w);
    RunsStaySafe(Terminal(P.START, New(h, w)), env, inputs);
  }
}
