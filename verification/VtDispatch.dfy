/** Modes, and which control each final byte names, over the stored screen. Everything here
    keeps each row in storage of its own: rows that come in are new, and none is shared. */
module VtDispatch {
  import opened Prelude
  import opened Sgr
  import opened VtCells
  import opened VtPrinter
  import opened VtControls
  import V = VtScreen
  import S = VtStream
  import I = VtInvariant

  type Byte = S.Byte

  lemma SafeIsValid(t: TerminalScreen)
    requires t.rows.Valid() && I.Safe(t.Model())
    ensures t.Valid() && t.StopsFit()
  {
    var s := t.Model();
    assert I.CursorOk(s) && I.MarginsOk(s.margins, s.h, s.w) && I.TabsOk(s);
  }

  // --- modes -------------------------------------------------------------------------------

  method SetOrigin(t: TerminalScreen, on: bool)
    requires t.Valid()
    modifies t`modes, t`cur
    ensures t.Valid() && t.Model() == V.ApplyMode(old(t.Model()), 6, on)
  {
    ghost var s := t.Model();
    t.modes := t.modes.(origin := on);
    t.cur := t.cur.(y := if on then t.margins.top else 0, x := if on then t.LeftBound() else 0);
    assert t.Model() == s.(modes := t.modes, cur := t.cur);
  }

  /** Side margins may be switched on from level 64 up; switched off, they are forgotten. */
  method SetSideMode(t: TerminalScreen, on: bool)
    requires t.Valid()
    modifies t`margins
    ensures t.Valid() && t.Model() == V.ApplyMode(old(t.Model()), 69, on)
  {
    ghost var s := t.Model();
    if !on {
      t.margins := t.margins.(lr := false, left := 0, right := t.rows.width - 1);
    } else if t.modes.level >= 64 {
      t.margins := t.margins.(lr := true);
    }
    assert t.Model() == s.(margins := t.margins);
  }

  method SetOther(t: TerminalScreen, mode: nat, on: bool)
    requires t.Valid() && !V.IsAltMode(mode) && mode !in {3, 6, 69, 1048}
    modifies t`modes
    ensures t.Valid() && t.Model() == V.ApplyMode(old(t.Model()), mode, on)
  {
    ghost var s := t.Model();
    t.modes := V.SwitchMode(t.modes, mode, on);
    assert t.Model() == s.(modes := t.modes);
  }

  /** Leaving the alternate screen also drops what has scrolled off and not been taken. */
  method SwitchScreen(t: TerminalScreen, mode: nat, on: bool)
    requires t.Valid() && V.IsAltMode(mode)
    modifies t, t.rows
    ensures t.rows.Valid() && fresh(t.rows.Owned() - old(t.rows.Owned()))
    ensures t.Model() == V.ApplyMode(old(t.Model()), mode, on)
  {
    if on {
      t.EnterAltScreen(mode);
    } else {
      t.ExitAltScreen(mode);
      ghost var s := t.Model();
      t.history := t.history.(drained := []);
      assert t.Model() == s.(history := t.history);
    }
  }

  method SwitchCursor(t: TerminalScreen, on: bool)
    requires t.Valid()
    modifies t
    ensures t.Model() == V.ApplyMode(old(t.Model()), 1048, on)
  {
    if on {
      t.SaveCursor();
    } else {
      t.RestoreCursor();
    }
  }

  method ApplyMode(t: TerminalScreen, mode: nat, on: bool)
    requires t.Valid()
    modifies t, t.rows, t.rows.repr
    ensures t.rows.Valid() && fresh(t.rows.Owned() - old(t.rows.Owned()))
    ensures t.Model() == V.ApplyMode(old(t.Model()), mode, on)
  {
    if mode == 3 {
      ColumnMode(t);
    } else if mode == 6 {
      SetOrigin(t, on);
    } else if V.IsAltMode(mode) {
      SwitchScreen(t, mode, on);
    } else if mode == 1048 {
      SwitchCursor(t, on);
    } else if mode == 69 {
      SetSideMode(t, on);
    } else {
      SetOther(t, mode, on);
    }
  }

  method ApplyModes(t: TerminalScreen, modes: seq<nat>, on: bool)
    requires t.rows.Valid() && I.Safe(t.Model())
    modifies t, t.rows, t.rows.Owned()
    ensures t.rows.Valid() && fresh(t.rows.Owned() - old(t.rows.Owned()))
    ensures t.Model() == V.ApplyModes(old(t.Model()), modes, on)
  {
    ghost var s := t.Model();
    for i := 0 to |modes|
      invariant t.rows.Valid() && I.Safe(t.Model()) && fresh(t.rows.Owned() - old(t.rows.Owned()))
      invariant V.ApplyModes(t.Model(), modes[i..], on) == V.ApplyModes(s, modes, on)
    {
      SafeIsValid(t);
      I.ModeKeeps(t.Model(), modes[i], on);
      assert modes[i..][1..] == modes[i + 1..];
      ApplyMode(t, modes[i], on);
    }
  }

  /** Each mode as it was last remembered; one never remembered is switched off. */
  method RecallModes(t: TerminalScreen, modes: seq<nat>)
    requires t.rows.Valid() && I.Safe(t.Model())
    modifies t, t.rows, t.rows.Owned()
    ensures t.rows.Valid() && fresh(t.rows.Owned() - old(t.rows.Owned()))
    ensures t.Model() == V.RecallModes(old(t.Model()), modes)
  {
    ghost var s := t.Model();
    for i := 0 to |modes|
      invariant t.rows.Valid() && I.Safe(t.Model()) && fresh(t.rows.Owned() - old(t.rows.Owned()))
      invariant V.RecallModes(t.Model(), modes[i..]) == V.RecallModes(s, modes)
    {
      SafeIsValid(t);
      var on := modes[i] in t.saves.modes && t.saves.modes[modes[i]];
      I.ModeKeeps(t.Model(), modes[i], on);
      assert modes[i..][1..] == modes[i + 1..];
      ApplyMode(t, modes[i], on);
    }
  }

  method ModeIsSet(t: TerminalScreen, mode: nat) returns (on: bool)
    ensures on == V.ModeIsSet(t.Model(), mode)
  {
    if V.IsAltMode(mode) { return t.rows.inAlt; }
    if mode == 69 { return t.margins.lr; }
    on := match mode
      case 6 => t.modes.origin
      case 7 => t.modes.autoWrap
      case 45 => t.modes.reverseWrap
      case 95 => t.modes.noClear
      case _ => false;
  }

  method RememberModes(t: TerminalScreen, modes: seq<nat>)
    requires t.Valid()
    modifies t`saves
    ensures t.Valid() && t.Model() == V.RememberModes(old(t.Model()), modes)
  {
    ghost var s := t.Model();
    for i := 0 to |modes|
      invariant t.Valid() && V.RememberModes(t.Model(), modes[i..]) == V.RememberModes(s, modes)
    {
      ghost var before := t.Model();
      var on := ModeIsSet(t, modes[i]);
      assert modes[i..][1..] == modes[i + 1..];
      t.saves := t.saves.(modes := t.saves.modes[modes[i] := on]);
      assert t.Model() == before.(saves := t.saves);
    }
  }

  method AnsiModes(t: TerminalScreen, modes: seq<nat>, on: bool)
    requires t.Valid()
    modifies t`modes
    ensures t.Valid() && t.Model() == old(t.Model()).(modes := V.AnsiModes(old(t.modes), modes, on))
  {
    for i := 0 to |modes|
      invariant V.AnsiModes(t.modes, modes[i..], on) == V.AnsiModes(old(t.modes), modes, on)
    {
      assert modes[i..][1..] == modes[i + 1..];
      t.modes := V.AnsiMode(t.modes, modes[i], on);
    }
  }

  // --- control characters and escapes --------------------------------------------------------

  /** A line feed, and with it a carriage return where new-line mode asks for one. */
  method LineFeed(t: TerminalScreen)
    requires t.Valid()
    modifies t`history, t`cur, t.rows`cells, t.rows`wrapped, t.rows`repr, t.rows.repr
    ensures t.Valid() && fresh(t.rows.repr - old(t.rows.repr))
    ensures
      var s := old(t.Model());
      t.Model() == V.LineDown(s.(cur := s.cur.(pending := false, x := if s.modes.newLine then 0 else s.cur.x)))
  {
    ghost var s := t.Model();
    t.cur := t.cur.(pending := false, x := if t.modes.newLine then 0 else t.cur.x);
    assert t.Model() == s.(cur := t.cur);
    t.LineDown();
  }

  /** A tab waiting on a deferred wrap stays put, unless the fix for it is on. */
  method HorizontalTab(t: TerminalScreen)
    requires t.Valid() && t.StopsFit()
    modifies t`history, t`cur, t.rows`cells, t.rows`wrapped, t.rows`repr, t.rows.repr
    ensures t.Valid() && fresh(t.rows.repr - old(t.rows.repr))
    ensures
      var s := old(t.Model());
      t.Model() == if !s.cur.pending then V.Tab(s) else if s.modes.moreFix then V.Tab(V.NextLine(s)) else s
  {
    if !t.cur.pending {
      t.Tab();
    } else if t.modes.moreFix {
      t.NextLine();
      t.Tab();
    }
  }

  method Return(t: TerminalScreen)
    requires t.Valid()
    modifies t`cur
    ensures t.Valid() && t.Model() == S.Settled(V.CarriageReturn(old(t.Model())))
  {
    t.CarriageReturn();
    t.Settle();
  }

  method Guard(t: TerminalScreen, on: bool)
    requires t.Valid()
    modifies t`pen
    ensures t.Valid() && t.Model() == old(t.Model()).(pen := old(t.pen).(isoProtected := on))
  {
    t.pen := t.pen.(isoProtected := on);
  }

  method Shift(t: TerminalScreen, gl: nat)
    requires t.Valid()
    modifies t`charsets
    ensures t.Valid() && t.Model() == old(t.Model()).(charsets := old(t.charsets).(gl := gl))
  {
    t.charsets := t.charsets.(gl := gl);
  }

  method SingleShift(t: TerminalScreen, shift: int)
    requires t.Valid()
    modifies t`charsets
    ensures t.Valid() && t.Model() == old(t.Model()).(charsets := old(t.charsets).(shift := shift))
  {
    t.charsets := t.charsets.(shift := shift);
  }

  method Execute(t: TerminalScreen, b: Byte)
    requires t.Valid() && t.StopsFit()
    modifies t, t.rows`cells, t.rows`wrapped, t.rows`repr, t.rows.repr
    ensures t.Valid() && fresh(t.rows.repr - old(t.rows.repr)) && t.Model() == S.Execute(old(t.Model()), b)
  {
    if b == 0x08 {
      t.Backspace();
    } else if 0x0A <= b <= 0x0C {
      LineFeed(t);
    } else if b == 0x0D {
      Return(t);
    } else if b == 0x09 {
      HorizontalTab(t);
    } else if b == 0x0E || b == 0x0F {
      Shift(t, if b == 0x0E then 1 else 0);
    } else if b == 0x96 || b == 0x97 {
      Guard(t, b == 0x96);
    }
  }

  method Index(t: TerminalScreen, home: bool)
    requires t.Valid()
    modifies t`history, t`cur, t.rows`cells, t.rows`wrapped, t.rows`repr, t.rows.repr
    ensures t.Valid() && fresh(t.rows.repr - old(t.rows.repr))
    ensures
      var down := V.LineDown(S.Settled(old(t.Model())));
      t.Model() == if home then V.CarriageReturn(down) else down
  {
    t.Settle();
    t.LineDown();
    if home { t.CarriageReturn(); }
  }

  predicate MovesByEsc(f: char) { f in {'D', 'E', 'M', '6', '9'} }

  method EscMotion(t: TerminalScreen, f: char)
    requires t.Valid() && MovesByEsc(f)
    modifies t`history, t`cur, t.rows`cells, t.rows`wrapped, t.rows`repr, t.rows.repr
    ensures t.Valid() && fresh(t.rows.repr - old(t.rows.repr)) && t.Model() == S.PlainEsc(old(t.Model()), f)
  {
    if f == 'D' || f == 'E' {
      Index(t, f == 'E');
    } else if f == 'M' {
      t.ReverseIndex();
    } else if f == '6' {
      t.BackIndex();
    } else {
      t.ForwardIndex();
    }
  }

  method PlainEsc(t: TerminalScreen, f: char)
    requires t.Valid() && t.StopsFit()
    modifies t, t.rows, t.rows.repr
    ensures t.rows.Valid() && fresh(t.rows.Owned() - old(t.rows.Owned())) && t.Model() == S.PlainEsc(old(t.Model()), f)
  {
    if MovesByEsc(f) {
      EscMotion(t, f);
    } else if f == '7' {
      t.SaveCursor();
    } else if f == '8' {
      t.RestoreCursor();
    } else if f == 'H' {
      t.SetStop(true);
    } else if f == 'V' || f == 'W' {
      Guard(t, f == 'V');
    } else if f == 'N' || f == 'O' {
      SingleShift(t, if f == 'N' then 2 else 3);
    } else if f == 'c' {
      HardReset(t);
    }
  }

  method DispatchEsc(t: TerminalScreen, intermediates: seq<Byte>, final: Byte)
    requires t.Valid() && t.StopsFit()
    modifies t, t.rows, t.rows.repr
    ensures t.rows.Valid() && fresh(t.rows.Owned() - old(t.rows.Owned()))
    ensures t.Model() == S.DispatchEsc(old(t.Model()), intermediates, final)
  {
    if intermediates == [] {
      PlainEsc(t, final as char);
    } else if intermediates[0] != '#' as int {
      Designate(t, intermediates[0], final);
    } else if final == '8' as int {
      AlignmentTest(t);
    }
  }

  // --- control sequences -----------------------------------------------------------------------

  type Groups = S.Groups

  predicate Steps(f: char) { f in {'A', 'B', 'C', 'D', 'E', 'F', 'e'} }

  method CsiSteps(t: TerminalScreen, gs: Groups, f: char)
    requires t.Valid() && Steps(f)
    modifies t`cur
    ensures t.Valid() && t.Model() == S.CsiMotion(old(t.Model()), gs, f)
  {
    var n := S.Val(gs, 0, 1);
    if f == 'A' || f == 'F' {
      t.CursorUp(n);
    } else if f == 'C' {
      t.CursorRight(n);
    } else if f == 'D' {
      t.CursorLeft(n);
    } else {
      t.CursorDown(n);
    }
    if f == 'E' || f == 'F' { t.ToLeft(); }
  }

  method CsiMotion(t: TerminalScreen, gs: Groups, f: char)
    requires t.Valid() && t.StopsFit() && S.IsMotion(f)
    modifies t`cur
    ensures t.Valid() && t.Model() == S.CsiMotion(old(t.Model()), gs, f)
  {
    var n := S.Val(gs, 0, 1);
    if Steps(f) {
      CsiSteps(t, gs, f);
    } else if f == 'G' || f == '`' {
      t.ToColumn(n - 1);
    } else if f == 'H' || f == 'f' {
      t.CursorPosition(n - 1, S.Val(gs, 1, 1) - 1);
    } else if f == 'a' {
      t.Along(n);
    } else if f == 'd' {
      t.ToRow(n - 1);
    } else if f == 'I' {
      t.Tabs(n);
    } else {
      t.BackTabs(n);
    }
  }

  method CsiEdit(t: TerminalScreen, env: S.Env, gs: Groups, marker: Byte, f: char)
    requires t.Valid() && S.IsEdit(f)
    modifies t, t.rows`cells, t.rows`wrapped, t.rows`repr, t.rows.repr
    ensures t.Valid() && fresh(t.rows.repr - old(t.rows.repr)) && t.Model() == S.CsiEdit(old(t.Model()), env, gs, marker, f)
  {
    var n := S.Val(gs, 0, 1);
    if f == 'J' {
      EraseDisplay(t, S.Val(gs, 0, 0), marker == '?' as int);
    } else if f == 'K' {
      EraseLine(t, S.Val(gs, 0, 0), marker == '?' as int);
    } else if f == '@' {
      t.InsertChars(n);
    } else if f == 'P' {
      t.DeleteChars(n);
    } else if f == 'L' {
      t.InsertLines(n);
    } else if f == 'M' {
      t.DeleteLines(n);
    } else if f == 'X' {
      t.EraseChars(n);
    } else {
      RepeatLast(t, S.Width(env, t.lastRune), n);
    }
  }

  method ScrollBy(t: TerminalScreen, n: nat, up: bool)
    requires t.Valid()
    modifies t`history, t.rows`cells, t.rows`wrapped, t.rows`repr, t.rows.repr
    ensures t.Valid() && fresh(t.rows.repr - old(t.rows.repr))
    ensures
      var s := old(t.Model());
      var k := Min(n, S.RegionHeight(s));
      t.Model() == if up then V.ScrollUpBy(s, k) else V.ScrollDownBy(s, k)
  {
    var k := Min(n, t.margins.bottom - t.margins.top + 1);
    assert k == Min(n, S.RegionHeight(t.Model()));
    if up {
      t.ScrollUp(k);
    } else {
      t.ScrollDown(k);
    }
  }

  /** The scroll region, or the modes remembered. */
  method CsiRegion(t: TerminalScreen, gs: Groups, marker: Byte)
    requires t.rows.Valid() && I.Safe(t.Model())
    modifies t, t.rows, t.rows.Owned()
    ensures t.rows.Valid() && fresh(t.rows.Owned() - old(t.rows.Owned()))
    ensures t.Model() == S.CsiScroll(old(t.Model()), gs, marker, 'r')
  {
    SafeIsValid(t);
    if marker == 0 {
      var h := t.rows.height;
      t.SetScrollRegion(Max(S.Val(gs, 0, 1) - 1, 0), Min(S.Val(gs, 1, h) - 1, h - 1));
    } else if marker == '?' as int {
      RecallModes(t, S.Values(gs));
    }
  }

  /** Side margins where they are on, the cursor saved where they are not. */
  method CsiSave(t: TerminalScreen, gs: Groups, marker: Byte)
    requires t.Valid()
    modifies t
    ensures t.Valid() && t.Model() == S.CsiScroll(old(t.Model()), gs, marker, 's')
  {
    if marker == '?' as int {
      RememberModes(t, S.Values(gs));
    } else if marker == 0 && t.margins.lr {
      var w := t.rows.width;
      t.SetSideMargins(Max(S.Val(gs, 0, 1) - 1, 0), Min(S.Val(gs, 1, w) - 1, w - 1));
    } else if marker == 0 {
      t.SaveCursor();
    }
  }

  method CsiScroll(t: TerminalScreen, gs: Groups, marker: Byte, f: char)
    requires t.rows.Valid() && I.Safe(t.Model()) && S.IsScroll(f)
    modifies t, t.rows, t.rows.Owned()
    ensures t.rows.Valid() && fresh(t.rows.Owned() - old(t.rows.Owned()))
    ensures t.Model() == S.CsiScroll(old(t.Model()), gs, marker, f)
  {
    SafeIsValid(t);
    if f == 'S' {
      ScrollBy(t, S.Val(gs, 0, 1), true);
    } else if f == '^' || (f == 'T' && marker != '>' as int) {
      ScrollBy(t, S.Val(gs, 0, 1), false);
    } else if f == 'r' {
      CsiRegion(t, gs, marker);
    } else if f == 's' {
      CsiSave(t, gs, marker);
    } else if f == 'u' && marker == 0 {
      t.RestoreCursor();
    }
  }

  method SwitchModes(t: TerminalScreen, gs: Groups, marker: Byte, on: bool)
    requires t.rows.Valid() && I.Safe(t.Model())
    modifies t, t.rows, t.rows.Owned()
    ensures t.rows.Valid() && fresh(t.rows.Owned() - old(t.rows.Owned()))
    ensures t.Model() == S.SwitchModes(old(t.Model()), gs, marker, on)
  {
    SafeIsValid(t);
    if marker == '?' as int {
      ApplyModes(t, S.Values(gs), on);
    } else if marker == 0 {
      AnsiModes(t, S.Values(gs), on);
    }
  }

  method ClearStops(t: TerminalScreen, mode: nat)
    requires t.Valid() && t.StopsFit()
    modifies t`tabs
    ensures t.Valid() && t.Model() == S.CsiModes(old(t.Model()), [[mode]], 0, 'g')
  {
    if mode == 0 {
      t.SetStop(false);
    } else if mode == 3 {
      t.tabs := Some(ClearFlags(t.rows.width));
    }
  }

  method CsiModes(t: TerminalScreen, gs: Groups, marker: Byte, f: char)
    requires t.rows.Valid() && I.Safe(t.Model())
    modifies t, t.rows, t.rows.Owned()
    ensures t.rows.Valid() && fresh(t.rows.Owned() - old(t.rows.Owned()))
    ensures t.Model() == S.CsiModes(old(t.Model()), gs, marker, f)
  {
    SafeIsValid(t);
    if f == 'm' {
      if marker == 0 { SetStyle(t, ApplySgr(t.pen.style, S.Cut(gs))); }
    } else if f == 'h' || f == 'l' {
      SwitchModes(t, gs, marker, f == 'h');
    } else if f == 'g' {
      ClearStops(t, S.Val(gs, 0, 0));
    }
  }

  method CsiRectangle(t: TerminalScreen, gs: Groups, f: char)
    requires t.Valid()
    modifies t.rows.repr
    ensures t.Valid() && t.Model() == S.CsiRectangle(old(t.Model()), gs, f)
  {
    if f == 'x' {
      var b := RectBox(t, S.Val(gs, 1, 0), S.Val(gs, 2, 0), S.Val(gs, 3, 0), S.Val(gs, 4, 0));
      FillRect(t, S.Val(gs, 0, 0), b);
      return;
    }
    var b := RectBox(t, S.Val(gs, 0, 0), S.Val(gs, 1, 0), S.Val(gs, 2, 0), S.Val(gs, 3, 0));
    if f == 'z' {
      t.EraseRegion(b, SpareNone);
    } else if f == '{' {
      t.EraseRegion(b, SpareDec);
    } else if f == 'v' {
      CopyRect(t, b, S.Val(gs, 5, 0), S.Val(gs, 6, 0));
    }
  }

  method Protect(t: TerminalScreen, on: bool)
    requires t.Valid()
    modifies t`pen
    ensures t.Valid() && t.Model() == old(t.Model()).(pen := old(t.pen).(decProtected := on))
  {
    t.pen := t.pen.(decProtected := on);
  }

  method SetLevel(t: TerminalScreen, level: nat)
    requires t.Valid()
    modifies t`modes
    ensures t.Valid() && t.Model() == old(t.Model()).(modes := old(t.modes).(level := level))
  {
    t.modes := t.modes.(level := level);
  }

  method CsiIntermediate(t: TerminalScreen, gs: Groups, i: char, f: char)
    requires t.Valid()
    modifies t, t.rows.repr
    ensures t.Valid() && t.Model() == S.CsiIntermediate(old(t.Model()), gs, i, f)
  {
    var n := S.Val(gs, 0, 1);
    if i == ' ' {
      if f == '@' { t.ShiftRows(n); } else if f == 'A' { t.ShiftRows(-(n as int)); }
    } else if i == '$' {
      CsiRectangle(t, gs, f);
    } else if i == '\'' {
      if f == '}' { t.InsertColumns(n); } else if f == '~' { t.DeleteColumns(n); }
    } else if i == '!' {
      if f == 'p' { SoftReset(t); }
    } else if i == '"' {
      if f == 'q' { Protect(t, S.Val(gs, 0, 0) == 1); } else if f == 'p' { SetLevel(t, S.Val(gs, 0, 65)); }
    }
  }

  method CsiMain(t: TerminalScreen, env: S.Env, gs: Groups, marker: Byte, f: char)
    requires t.rows.Valid() && I.Safe(t.Model())
    modifies t, t.rows, t.rows.Owned()
    ensures t.rows.Valid() && fresh(t.rows.Owned() - old(t.rows.Owned()))
    ensures t.Model() == S.CsiMain(old(t.Model()), env, gs, marker, f)
  {
    SafeIsValid(t);
    if S.IsMotion(f) {
      CsiMotion(t, gs, f);
    } else if S.IsEdit(f) {
      CsiEdit(t, env, gs, marker, f);
    } else if S.IsScroll(f) {
      CsiScroll(t, gs, marker, f);
    } else {
      CsiModes(t, gs, marker, f);
    }
  }

  method DispatchCsi(t: TerminalScreen, env: S.Env, gs: Groups, intermediates: seq<Byte>, marker: Byte, final: Byte)
    requires t.rows.Valid() && I.Safe(t.Model())
    modifies t, t.rows, t.rows.Owned()
    ensures t.rows.Valid() && fresh(t.rows.Owned() - old(t.rows.Owned()))
    ensures t.Model() == S.DispatchCsi(old(t.Model()), env, gs, intermediates, marker, final)
  {
    SafeIsValid(t);
    var f := final as char;
    if f in S.CLEARS_WRAP {
      I.CursorKeeps(t.Model(), t.cur.(pending := false));
      t.Settle();
    }
    if intermediates != [] && S.Consumes(intermediates[0]) {
      CsiIntermediate(t, gs, intermediates[0] as char, f);
    } else {
      CsiMain(t, env, gs, marker, f);
    }
  }
}
