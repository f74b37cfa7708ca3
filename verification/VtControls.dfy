/** The controls a program sends, each done to the stored screen as the value functions of
    the screen say: erasing, rectangles, resets, modes and repeats. As in the program, these
    are spread over files of their own and take the screen they act on. */
module VtControls {
  import opened Prelude
  import opened Sgr
  import opened VtCells
  import opened VtRows
  import opened VtStore
  import opened VtPrinter
  import V = VtScreen
  import S = VtStream

  // --- erasing -----------------------------------------------------------------------------

  method EraseBoth(t: TerminalScreen, a: Box, b: Box, m: Spare)
    requires t.Valid()
    modifies t.rows.repr
    ensures t.Valid() && t.Model() == V.EraseBox(V.EraseBox(old(t.Model()), a, m), b, m)
  {
    t.EraseRegion(a, m);
    t.EraseRegion(b, m);
  }

  method EraseBelow(t: TerminalScreen, m: Spare)
    requires t.Valid()
    modifies t.rows.repr
    ensures t.Valid()
    ensures
      var s := old(t.Model());
      t.Model() == V.EraseBox(V.EraseBox(s, Box(s.cur.y, s.cur.x, s.cur.y, s.w - 1), m), Box(s.cur.y + 1, 0, s.h - 1, s.w - 1), m)
  {
    var (y, x, h, w) := (t.cur.y, t.cur.x, t.rows.height, t.rows.width);
    EraseBoth(t, Box(y, x, y, w - 1), Box(y + 1, 0, h - 1, w - 1), m);
  }

  method EraseAbove(t: TerminalScreen, m: Spare)
    requires t.Valid()
    modifies t.rows.repr
    ensures t.Valid()
    ensures
      var s := old(t.Model());
      t.Model() == V.EraseBox(V.EraseBox(s, Box(0, 0, s.cur.y - 1, s.w - 1), m), Box(s.cur.y, 0, s.cur.y, s.cur.x), m)
  {
    var (y, x, w) := (t.cur.y, t.cur.x, t.rows.width);
    EraseBoth(t, Box(0, 0, y - 1, w - 1), Box(y, 0, y, x), m);
  }

  /** No line continues another, and the history starts over. */
  method ForgetLines(t: TerminalScreen, cleared: bool)
    requires t.Valid()
    modifies t`history, t.rows`wrapped
    ensures t.Valid()
    ensures t.Model() == old(t.Model()).(wrapped := ClearFlags(t.rows.height), history := V.History([], [], cleared))
  {
    ghost var s := t.Model();
    t.rows.wrapped := ClearFlags(t.rows.height);
    t.history := V.History([], [], cleared);
    assert t.Model() == s.(wrapped := t.rows.wrapped, history := t.history);
  }

  /** The whole screen, its wrap flags and the history with it. */
  method EraseAll(t: TerminalScreen, m: Spare, cleared: bool)
    requires t.Valid()
    modifies t`history, t.rows`wrapped, t.rows.repr
    ensures t.Valid()
    ensures
      var s := old(t.Model());
      t.Model() == V.EraseBox(s, V.WholeScreen(s), m).(wrapped := ClearFlags(s.h), history := V.History([], [], cleared))
  {
    t.EraseRegion(Box(0, 0, t.rows.height - 1, t.rows.width - 1), m);
    ForgetLines(t, cleared);
  }

  method EraseDisplay(t: TerminalScreen, mode: nat, selective: bool)
    requires t.Valid()
    modifies t`history, t.rows`wrapped, t.rows.repr
    ensures t.Valid() && t.Model() == V.EraseDisplay(old(t.Model()), mode, selective)
  {
    var regular := if selective then SpareBoth else SpareIso;
    if mode == 0 {
      EraseBelow(t, regular);
    } else if mode == 1 {
      EraseAbove(t, regular);
    } else if mode == 2 {
      EraseAll(t, if selective then SpareBoth else SpareNone, t.history.cleared);
    } else if mode == 3 {
      t.history := V.History([], [], true);
    }
  }

  method EraseLine(t: TerminalScreen, mode: nat, selective: bool)
    requires t.Valid()
    modifies t.rows.repr
    ensures t.Valid() && t.Model() == V.EraseLine(old(t.Model()), mode, selective)
  {
    var m := if selective then SpareBoth else SpareIso;
    var (y, x, w) := (t.cur.y, t.cur.x, t.rows.width);
    if mode == 0 {
      t.EraseRegion(Box(y, x, y, w - 1), m);
    } else if mode == 1 {
      t.EraseRegion(Box(y, 0, y, x), m);
    } else if mode == 2 {
      t.EraseRegion(Box(y, 0, y, w - 1), m);
    }
  }

  // --- rectangles --------------------------------------------------------------------------

  method RectBox(t: TerminalScreen, pt: nat, pl: nat, pb: nat, pr: nat) returns (b: Box)
    requires t.Valid()
    ensures b == V.RectBox(t.Model(), pt, pl, pb, pr)
    ensures 0 <= b.top < t.rows.height && 0 <= b.left < t.rows.width && b.bottom < t.rows.height && b.right < t.rows.width
  {
    var (rowLow, rowHigh, colLow, colHigh) := (0, t.rows.height - 1, 0, t.rows.width - 1);
    var (oy, ox) := (0, 0);
    if t.modes.origin {
      oy, ox := t.margins.top, t.LeftBound();
      rowLow, rowHigh, colLow, colHigh := t.margins.top, t.margins.bottom, t.LeftBound(), t.RightBound();
    }
    var top := Min(Max(Max(pt, 1) - 1 + oy, rowLow), rowHigh);
    var left := Min(Max(Max(pl, 1) - 1 + ox, colLow), colHigh);
    var bottom := if pb >= 1 then Min(Max(pb - 1 + oy, rowLow), rowHigh) else rowHigh;
    var right := if pr >= 1 then Min(Max(pr - 1 + ox, colLow), colHigh) else colHigh;
    b := Box(top, left, bottom, right);
  }

  method FillRegion(t: TerminalScreen, b: Box, ink: Cell)
    requires t.Valid()
    modifies t.rows.repr
    ensures t.Valid()
    ensures t.Model() == old(t.Model()).(cells := Erase(old(Contents(t.rows.cells)), t.rows.height, t.rows.width, b, SpareNone, ink))
  {
    t.rows.EraseBox(b, SpareNone, ink);
    assert t.AltModel() == old(t.AltModel());
  }

  method FillRect(t: TerminalScreen, ch: nat, b: Box)
    requires t.Valid()
    modifies t.rows.repr
    ensures t.Valid() && t.Model() == V.FillRect(old(t.Model()), ch, b)
  {
    FillRegion(t, b, Cell(if ch < 0x20 then SPACE else ch, t.pen.style, [], t.pen.decProtected, false));
  }

  lemma NothingCopied(g: Grid, h: nat, w: nat, b: Box, dy: int, dx: int)
    requires Sized(g, h, w) && (b.top > b.bottom || b.left > b.right)
    ensures CopyBox(g, h, w, b, dy, dx) == g
  {
    CopiedCells(g, h, w, b, dy, dx);
    SameGrid(CopyBox(g, h, w, b, dy, dx), g, h, w);
  }

  method CopyRegion(t: TerminalScreen, b: Box, dy: nat, dx: nat)
    requires t.Valid() && Fits(b, t.rows.height, t.rows.width)
    modifies t.rows.repr
    ensures t.Valid()
    ensures t.Model() == old(t.Model()).(cells := CopyBox(old(Contents(t.rows.cells)), t.rows.height, t.rows.width, b, dy, dx))
  {
    t.rows.CopyBox(b, dy, dx);
    assert t.AltModel() == old(t.AltModel());
  }

  /** An empty rectangle copies nothing. */
  method CopyRect(t: TerminalScreen, b: Box, dtop: nat, dleft: nat)
    requires t.Valid() && 0 <= b.top < t.rows.height && 0 <= b.left < t.rows.width && b.bottom < t.rows.height && b.right < t.rows.width
    modifies t.rows.repr
    ensures t.Valid() && t.Model() == V.CopyRect(old(t.Model()), b, dtop, dleft)
  {
    var d := RectBox(t, dtop, dleft, 0, 0);
    if b.top > b.bottom || b.left > b.right {
      NothingCopied(Contents(t.rows.cells), t.rows.height, t.rows.width, b, d.top, d.left);
    } else {
      CopyRegion(t, b, d.top, d.left);
    }
  }

  /** Margins as wide as the screen, the cursor home. */
  method FullFrame(t: TerminalScreen)
    requires t.Valid()
    modifies t`margins, t`cur
    ensures t.Valid()
    ensures t.Model() == old(t.Model()).(margins := V.FullMargins(t.rows.height, t.rows.width), cur := V.Cursor(0, 0, false))
  {
    ghost var s := t.Model();
    t.margins, t.cur := V.FullMargins(t.rows.height, t.rows.width), V.Cursor(0, 0, false);
    assert t.Model() == s.(margins := t.margins, cur := t.cur);
  }

  method AlignmentTest(t: TerminalScreen)
    requires t.Valid()
    modifies t`margins, t`cur, t.rows.repr
    ensures t.Valid() && t.Model() == V.AlignmentTest(old(t.Model()))
  {
    FillRegion(t, Box(0, 0, t.rows.height - 1, t.rows.width - 1), Cell('E' as int, PLAIN, [], false, false));
    FullFrame(t);
  }

  // --- resets --------------------------------------------------------------------------------

  method PlainPen(t: TerminalScreen)
    modifies t`pen, t`modes, t`charsets
    ensures t.pen == V.PLAIN_PEN && t.modes == V.PLAIN_MODES.(level := old(t.modes.level)) && t.charsets == V.PLAIN_CHARSETS
  {
    t.pen, t.modes, t.charsets := V.PLAIN_PEN, V.PLAIN_MODES.(level := t.modes.level), V.PLAIN_CHARSETS;
  }

  method PlainFrame(t: TerminalScreen)
    requires t.rows.height >= 1 && t.rows.width >= 1
    modifies t`margins, t`saves, t`cur
    ensures t.margins == V.FullMargins(t.rows.height, t.rows.width) && t.saves == old(t.saves).(main := None, alt := None)
    ensures t.cur == old(t.cur).(pending := false)
  {
    t.margins, t.saves := V.FullMargins(t.rows.height, t.rows.width), t.saves.(main := None, alt := None);
    t.cur := t.cur.(pending := false);
  }

  method SoftReset(t: TerminalScreen)
    requires t.Valid()
    modifies t`pen, t`margins, t`saves, t`cur, t`modes, t`charsets
    ensures t.Valid() && t.Model() == V.SoftReset(old(t.Model()))
  {
    ghost var s := t.Model();
    PlainPen(t);
    assert t.Model() == s.(pen := t.pen, modes := t.modes, charsets := t.charsets);
    ghost var u := t.Model();
    PlainFrame(t);
    assert t.Model() == u.(margins := t.margins, saves := t.saves, cur := t.cur);
  }

  /** The rows kept behind the screen are dropped; those showing become the main screen's. */
  method DropOthers(t: TerminalScreen)
    requires t.Valid()
    modifies t.rows`inAlt, t.rows`saved, t.rows`stash, t.rows`wrapped
    ensures t.Valid() && t.rows.Owned() == t.rows.repr
    ensures t.Model() == old(t.Model()).(alt := V.Alt(false, None, None), wrapped := ClearFlags(t.rows.height))
  {
    ghost var g := Contents(t.rows.cells);
    t.rows.DropBehind();
    assert Contents(t.rows.cells) == g;
  }

  method HardReset(t: TerminalScreen)
    requires t.Valid()
    modifies t, t.rows, t.rows.repr
    ensures t.Valid() && fresh(t.rows.Owned() - old(t.rows.Owned())) && t.Model() == V.HardReset(old(t.Model()))
  {
    ghost var s := t.Model();
    SoftReset(t);
    ghost var soft := t.Model();
    EraseAll(t, SpareNone, true);
    DropOthers(t);
    t.cur, t.tabs := V.Cursor(0, 0, false), None;
    assert t.Model() == V.EraseBox(soft, V.WholeScreen(soft), SpareNone).(
      cur := V.Cursor(0, 0, false), wrapped := ClearFlags(s.h), history := V.History([], [], true),
      alt := V.Alt(false, None, None), tabs := None);
  }

  method ClearColumns(t: TerminalScreen)
    requires t.Valid()
    modifies t`history, t.rows.repr
    ensures t.Valid()
    ensures
      var s := old(t.Model());
      t.Model() == V.EraseBox(s, V.WholeScreen(s), SpareNone).(history := s.history.(drained := []))
  {
    t.EraseRegion(Box(0, 0, t.rows.height - 1, t.rows.width - 1), SpareNone);
    t.history := t.history.(drained := []);
  }

  /** A change of column mode: the width stays, all else it does happens. */
  method ColumnMode(t: TerminalScreen)
    requires t.Valid()
    modifies t`margins, t`cur, t`history, t.rows.repr
    ensures t.Valid() && t.Model() == V.ColumnMode(old(t.Model()))
  {
    FullFrame(t);
    if !(t.modes.noClear && t.modes.level >= 65) { ClearColumns(t); }
  }

  // --- character sets, repeats ---------------------------------------------------------------

  method Designate(t: TerminalScreen, slot: S.Byte, final: S.Byte)
    modifies t`charsets
    ensures t.Model() == S.Designate(old(t.Model()), slot, final)
  {
    var chosen := if final == '0' as int then V.GRAPHIC else if final == 'A' as int then V.UK else V.ASCII;
    if '(' as int <= slot <= '+' as int && |t.charsets.sets| == 4 {
      t.charsets := t.charsets.(sets := t.charsets.sets[slot - '(' as int := chosen]);
    }
  }

  method PutAscii(t: TerminalScreen, env: S.Env, b: S.Byte)
    requires t.Valid()
    modifies t`history, t`cur, t`lastRune, t`lastStyle, t`charsets, t.rows`cells, t.rows`wrapped, t.rows`repr, t.rows.repr
    ensures t.Valid() && fresh(t.rows.repr - old(t.rows.repr)) && t.Model() == S.PutAscii(old(t.Model()), env, b)
  {
    ghost var s := t.Model();
    var rune := S.Translate(S.ActiveSet(t.charsets), b);
    t.charsets := t.charsets.(shift := if t.charsets.shift >= 2 then V.NO_SHIFT else t.charsets.shift);
    assert t.Model() == s.(charsets := t.charsets);
    t.Put(rune, S.Width(env, rune));
  }

  method Repeat(t: TerminalScreen, rune: nat, width: nat, n: nat)
    requires t.Valid()
    modifies t`history, t`cur, t`lastRune, t`lastStyle, t.rows`cells, t.rows`wrapped, t.rows`repr, t.rows.repr
    ensures t.Valid() && fresh(t.rows.repr - old(t.rows.repr)) && t.Model() == V.Repeat(old(t.Model()), rune, width, n)
  {
    ghost var s := t.Model();
    for i := 0 to n
      invariant t.Valid() && fresh(t.rows.repr - old(t.rows.repr))
      invariant V.Repeat(t.Model(), rune, width, n - i) == V.Repeat(s, rune, width, n)
    {
      t.Put(rune, width);
    }
  }

  method SetStyle(t: TerminalScreen, style: Style)
    requires t.Valid()
    modifies t`pen
    ensures t.Valid() && t.Model() == old(t.Model()).(pen := old(t.pen).(style := style))
  {
    t.pen := t.pen.(style := style);
  }

  /** The last rune again, in the style it had. */
  method RepeatLast(t: TerminalScreen, width: nat, n: nat)
    requires t.Valid()
    modifies t`history, t`cur, t`lastRune, t`lastStyle, t`pen, t.rows`cells, t.rows`wrapped, t.rows`repr, t.rows.repr
    ensures t.Valid() && fresh(t.rows.repr - old(t.rows.repr)) && t.Model() == V.RepeatLast(old(t.Model()), width, n)
  {
    if t.lastRune != 0 {
      var style := t.pen.style;
      SetStyle(t, t.lastStyle);
      Repeat(t, t.lastRune, width, n);
      SetStyle(t, style);
    }
  }
}
