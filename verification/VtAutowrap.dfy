/** Text of single and double width printed on a fresh screen is laid out line by line, a wide
    glyph never split, and can be read back: rows scrolled off, then rows on the screen,
    joined where the wrap flags say. */
module VtAutowrap {
  import opened Prelude
  import opened Sgr
  import opened VtCells
  import opened VtScreen
  import opened Wire

  /** A rune and whether it takes two columns. */
  datatype Printed = Printed(rune: nat, wide: bool)

  type Text = seq<Printed>

  function PrintAll(s: Screen, text: Text): Screen
    decreases |text|
  {
    if text == [] then s
    else PutGlyph(PrintAll(s, text[..|text| - 1]), text[|text| - 1].rune, if text[|text| - 1].wide then 2 else 1)
  }

  /** Wide glyphs need two columns to stand in. */
  predicate Printable(text: Text, w: nat) { w >= 2 || (w == 1 && forall i :: 0 <= i < |text| ==> !text[i].wide) }

  // --- where each cell of a text belongs ---------------------------------------------------

  function Inked(rune: nat): Cell { Cell(rune, PLAIN, [], false, false) }

  /** The column an offset falls in, `w` cells to a line. */
  function Col(at: nat, w: nat): nat
    requires w >= 1
  {
    if at < w then at else Col(at - w, w)
  }

  /** The cells of a rune printed `at` cells into the text: a wide one takes two, and where
      one column is left it goes to the next line and leaves that column blank. */
  function CellsFor(g: Printed, at: nat, w: nat): Row
    requires w >= 1
  {
    if !g.wide then [Inked(g.rune)]
    else if Col(at, w) == w - 1 then [Inked(SPACE), Inked(g.rune), Inked(0)]
    else [Inked(g.rune), Inked(0)]
  }

  /** A text as the cells it takes, one after another. */
  function Stream(text: Text, w: nat): Row
    requires w >= 1
    decreases |text|
  {
    if text == [] then []
    else
      var before := Stream(text[..|text| - 1], w);
      before + CellsFor(text[|text| - 1], |before|, w)
  }

  function CellFor(ink: Row, i: int): Cell { if 0 <= i < |ink| then ink[i] else BLANK }

  /** The offset at which line `r` starts, `w` runes to a line. */
  function Start(w: nat, r: nat): nat { if r == 0 then 0 else Start(w, r - 1) + w }

  /** The line of the cells that starts at an offset. */
  function LineAt(ink: Row, w: nat, start: nat): (l: Row)
    ensures |l| == w
    ensures forall c: nat :: c < w ==> l[c] == CellFor(ink, start + c)
  {
    seq(w, c => CellFor(ink, start + c))
  }

  function Line(ink: Row, w: nat, r: nat): Row { LineAt(ink, w, Start(w, r)) }

  lemma {:induction false} StartsGrow(w: nat, a: nat, b: nat)
    requires a <= b
    ensures Start(w, a) <= Start(w, b)
    decreases b
  {
    if a < b { StartsGrow(w, a, b - 1); }
  }

  lemma StartsApart(w: nat, r: nat, c: nat, next: nat)
    requires c < w && r < next
    ensures Start(w, r) + c < Start(w, next)
  {
    StartsGrow(w, r + 1, next);
  }

  lemma LinePosition(w: nat, r: nat, c: nat, r': nat, c': nat)
    requires c < w && c' < w && Start(w, r) + c == Start(w, r') + c'
    ensures r == r' && c == c'
  {
    if r < r' {
      StartsApart(w, r, c, r');
    } else if r' < r {
      StartsApart(w, r', c', r);
    }
  }

  lemma LineGrows(ink: Row, cell: Cell, w: nat, r: nat, c: nat, k: nat)
    requires c < w && Start(w, r) + c == |ink|
    ensures Line(ink + [cell], w, k) == if k == r then Line(ink, w, r)[c := cell] else Line(ink, w, k)
  {
    var before, after := Line(ink, w, k), Line(ink + [cell], w, k);
    forall j: nat | j < w ensures after[j] == if k == r && j == c then cell else before[j] {
      if Start(w, k) + j == |ink| { LinePosition(w, k, j, r, c); }
    }
  }

  // --- what a screen holding a text looks like --------------------------------------------------

  /** A screen still in its initial modes. */
  predicate Default(s: Screen) {
    && s.h >= 2 && s.w >= 1 && Sized(s.cells, s.h, s.w) && |s.wrapped| == s.h
    && s.margins == FullMargins(s.h, s.w) && s.pen == PLAIN_PEN && s.modes == PLAIN_MODES && !s.alt.active
  }

  function Off(s: Screen): nat { |s.history.drained| }

  /** Rows scrolled off, then rows on the screen. */
  function CanvasRow(s: Screen, r: nat): Row
    requires r < Off(s) + |s.cells|
  {
    if r < Off(s) then s.history.drained[r].cells else s.cells[r - Off(s)]
  }

  predicate Holds(s: Screen, ink: Row) {
    forall r: nat :: r < Off(s) + |s.cells| ==> CanvasRow(s, r) == Line(ink, s.w, r)
  }

  /** The rows up to line `last`, but for the first, are marked as continuations. */
  predicate Flagged(s: Screen, last: nat) {
    && (forall y: nat :: y < |s.wrapped| ==> (s.wrapped[y] <==> 0 < Off(s) + y <= last))
    && (forall r: nat :: r < Off(s) ==> s.history.drained[r].continues)
  }

  predicate Drawn(s: Screen, ink: Row, last: int) {
    && Default(s) && Holds(s, ink) && 0 <= last && Flagged(s, last)
    && Off(s) + s.cur.y == last && 0 <= s.cur.y < s.h && (Off(s) > 0 ==> s.cur.y == s.h - 1)
  }

  /** The next cell goes where the cursor is. */
  predicate Ready(s: Screen, ink: Row) {
    var last := Off(s) + s.cur.y;
    Drawn(s, ink, last) && !s.cur.pending && 0 <= s.cur.x < s.w && Start(s.w, last) + s.cur.x == |ink|
  }

  /** The line is full and the wrap deferred. */
  predicate Full(s: Screen, ink: Row) {
    var last := Off(s) + s.cur.y;
    Drawn(s, ink, last) && s.cur.pending && s.cur.x == s.w - 1 && Start(s.w, last) + s.w == |ink|
  }

  predicate Laid(s: Screen, ink: Row) { Ready(s, ink) || Full(s, ink) }

  // --- one cell more ------------------------------------------------------------------------------

  lemma ScrolledOff(s: Screen, ink: Row)
    requires Full(s, ink) && s.cur.y == s.h - 1
    ensures
      var t := ScrollUpOnce(s);
      && Default(t) && Off(t) == Off(s) + 1 && t.cur == s.cur && t.w == s.w && t.h == s.h
      && t.history.drained == s.history.drained + [Drained(s.cells[0], true)]
      && t.history.tail == Last(s.history.tail + [s.cells[0]], TAIL_ROWS)
      && (forall y: nat :: y < s.h - 1 ==> t.cells[y] == s.cells[y + 1] && t.wrapped[y] == s.wrapped[y + 1])
      && t.cells[s.h - 1] == BlankRow(s.w, DEFAULT_COLOR) && !t.wrapped[s.h - 1]
  {
    var t := ScrollUpOnce(s);
    assert s.wrapped[1];
    MovedUpCells(s.cells, s.h, s.w, Region(s, 0), 1, BLANK);
    forall y: nat | y < s.h - 1 ensures t.cells[y] == s.cells[y + 1] {
      forall x: nat | x < s.w ensures t.cells[y][x] == s.cells[y + 1][x] {}
    }
    var bottom := t.cells[s.h - 1];
    forall x: nat | x < s.w ensures bottom[x] == BLANK {}
  }

  lemma PastTheEnd(ink: Row, w: nat, r: nat)
    requires w >= 1 && Start(w, r) >= |ink|
    ensures Line(ink, w, r) == BlankRow(w, DEFAULT_COLOR)
  {}

  lemma ScrollHolds(s: Screen, ink: Row)
    requires Full(s, ink) && s.cur.y == s.h - 1
    ensures Holds(ScrollUpOnce(s), ink)
  {
    ScrolledOff(s, ink);
    var t := ScrollUpOnce(s);
    forall r: nat | r < Off(t) + |t.cells| ensures CanvasRow(t, r) == Line(ink, t.w, r) {
      if r < Off(t) + t.h - 1 {
        assert CanvasRow(t, r) == CanvasRow(s, r);
      } else {
        PastTheEnd(ink, s.w, r);
      }
    }
  }

  lemma SameCanvas(s: Screen, t: Screen, ink: Row)
    requires Holds(s, ink) && t.cells == s.cells && t.history == s.history && t.w == s.w
    ensures Holds(t, ink)
  {
    forall r: nat | r < Off(t) + |t.cells| ensures CanvasRow(t, r) == Line(ink, t.w, r) {
      assert CanvasRow(t, r) == CanvasRow(s, r);
    }
  }

  lemma StepIsReady(s: Screen, ink: Row)
    requires Full(s, ink) && s.cur.y < s.h - 1
    ensures Ready(WrapLine(s), ink) && WrapLine(s).history == s.history
  {
    var t := WrapLine(s);
    assert t == s.(cur := Cursor(s.cur.y + 1, 0, false), wrapped := s.wrapped[s.cur.y + 1 := true]);
    SameCanvas(s, t, ink);
  }

  lemma ScrollIsReady(s: Screen, ink: Row)
    requires Full(s, ink) && s.cur.y == s.h - 1
    ensures Ready(WrapLine(s), ink)
  {
    ScrolledOff(s, ink);
    ScrollHolds(s, ink);
    var t, up := WrapLine(s), ScrollUpOnce(s);
    WrapScrolls(s);
    SameCanvas(up, t, ink);
  }

  lemma WrapScrolls(s: Screen)
    requires Default(s) && s.cur.y == s.h - 1 && 0 <= s.cur.x < s.w
    ensures
      var up := ScrollUpOnce(s);
      |up.wrapped| == s.h &&
      WrapLine(s) == up.(cur := Cursor(s.h - 1, 0, false), wrapped := up.wrapped[s.h - 1 := true])
  {
    var c := Cursor(s.cur.y + 1, 0, false);
    ScrollIgnoresCursor(s, c);
    ScrollFrame(s);
    assert NextLine(s) == ScrollUpOnce(s).(cur := Cursor(s.h - 1, 0, false));
  }

  lemma WrapIsReady(s: Screen, ink: Row)
    requires Full(s, ink)
    ensures Ready(WrapLine(s), ink)
  {
    if s.cur.y == s.h - 1 {
      ScrollIsReady(s, ink);
    } else {
      StepIsReady(s, ink);
    }
  }

  lemma WriteHolds(s: Screen, ink: Row, cell: Cell)
    requires Ready(s, ink)
    ensures Holds(VtScreen.Write(s, s.cur.x, cell), ink + [cell])
  {
    var t := VtScreen.Write(s, s.cur.x, cell);
    SetCells(s.cells, s.h, s.w, s.cur.y, s.cur.x, cell);
    forall r: nat | r < Off(t) + |t.cells| ensures CanvasRow(t, r) == Line(ink + [cell], t.w, r) {
      var last := Off(s) + s.cur.y;
      assert CanvasRow(s, r) == Line(ink, s.w, r);
      LineGrows(ink, cell, s.w, last, s.cur.x, r);
      if r >= Off(s) {
        var y := r - Off(s);
        forall x: nat | x < s.w ensures t.cells[y][x] == if r == last && x == s.cur.x then cell else s.cells[y][x] {}
      }
    }
  }

  /** What a screen shows is its cells, its history and its flags. */
  predicate SameShow(s: Screen, t: Screen) {
    && t.cells == s.cells && t.history == s.history && t.wrapped == s.wrapped && t.h == s.h && t.w == s.w
    && t.margins == s.margins && t.pen == s.pen && t.modes == s.modes && t.alt == s.alt
  }

  lemma ShowKeepsHolds(s: Screen, t: Screen, ink: Row)
    requires Holds(s, ink) && SameShow(s, t)
    ensures Holds(t, ink)
  {
    SameCanvas(s, t, ink);
  }

  /** A cell written at the cursor, and the cursor one on, or at the edge. */
  lemma WriteIsLaid(s: Screen, t: Screen, ink: Row, cell: Cell)
    requires Ready(s, ink) && SameShow(VtScreen.Write(s, s.cur.x, cell), t)
    requires t.cur == (if s.cur.x + 1 < s.w then Cursor(s.cur.y, s.cur.x + 1, false) else Cursor(s.cur.y, s.w - 1, true))
    ensures Laid(t, ink + [cell])
    ensures s.cur.x + 1 < s.w ==> Ready(t, ink + [cell])
  {
    WriteHolds(s, ink, cell);
    ShowKeepsHolds(VtScreen.Write(s, s.cur.x, cell), t, ink + [cell]);
  }

  lemma NarrowIsLaid(s: Screen, ink: Row, rune: nat)
    requires Ready(s, ink)
    ensures Laid(Advance(Ink(s, rune, 1)), ink + [Inked(rune)])
  {
    WriteIsLaid(s, Advance(Ink(s, rune, 1)), ink, Inked(rune));
  }

  /** The screen between the two halves of a wide glyph. */
  function Halfway(s: Screen, rune: nat): Screen {
    var t := InkFirst(s, rune);
    t.(cur := t.cur.(x := t.cur.x + 1))
  }

  lemma SecondHalf(s: Screen, rune: nat)
    requires Default(s) && 0 <= s.cur.x < s.w - 1 && !s.cur.pending
    ensures
      var half := Halfway(s, rune);
      && SameShow(VtScreen.Write(half, half.cur.x, Inked(0)), Advance(Ink(s, rune, 2)))
      && Advance(Ink(s, rune, 2)).cur ==
         (if half.cur.x + 1 < s.w then Cursor(s.cur.y, half.cur.x + 1, false) else Cursor(s.cur.y, s.w - 1, true))
  {}

  lemma WideIsLaid(s: Screen, ink: Row, rune: nat)
    requires Ready(s, ink) && s.cur.x < s.w - 1
    ensures Laid(Advance(Ink(s, rune, 2)), ink + [Inked(rune), Inked(0)])
  {
    var half := Halfway(s, rune);
    WriteIsLaid(s, half, ink, Inked(rune));
    SecondHalf(s, rune);
    WriteIsLaid(half, Advance(Ink(s, rune, 2)), ink + [Inked(rune)], Inked(0));
    assert ink + [Inked(rune)] + [Inked(0)] == ink + [Inked(rune), Inked(0)];
  }

  lemma WrapIgnoresPending(s: Screen, pending: bool)
    ensures WrapLine(s.(cur := s.cur.(pending := pending))) == WrapLine(s)
  {
    assert NextLine(s.(cur := s.cur.(pending := pending))) == NextLine(s);
  }

  /** A wide glyph with one column left blanks it and goes to the next line. */
  lemma WrapWideIsReady(s: Screen, ink: Row)
    requires Ready(s, ink) && s.cur.x == s.w - 1
    ensures Ready(WrapWide(s), ink + [Inked(SPACE)])
  {
    var blank := VtScreen.Write(s, s.cur.x, Inked(SPACE));
    var full := blank.(cur := blank.cur.(pending := true));
    WriteIsLaid(s, full, ink, Inked(SPACE));
    assert Full(full, ink + [Inked(SPACE)]);
    WrapIsReady(full, ink + [Inked(SPACE)]);
    WrapIgnoresPending(blank, true);
  }

  lemma {:induction false} ColOfStart(w: nat, r: nat, c: nat)
    requires c < w
    ensures Col(Start(w, r) + c, w) == c
  {
    if r > 0 { ColOfStart(w, r - 1, c); }
  }

  lemma LaidColumn(s: Screen, ink: Row)
    requires Laid(s, ink)
    ensures Col(|ink|, s.w) == if Full(s, ink) then 0 else s.cur.x
  {
    var last := Off(s) + s.cur.y;
    if Full(s, ink) { ColOfStart(s.w, last + 1, 0); } else { ColOfStart(s.w, last, s.cur.x); }
  }

  lemma WrapKeepsSize(s: Screen)
    ensures WrapLine(s).h == s.h && WrapLine(s).w == s.w
  {
    ScrollFrame(s.(cur := Cursor(s.cur.y + 1, WrapColumn(s), false)));
  }

  /** The deferred wrap done, the cursor stands in the column the next cell falls in. */
  lemma StartsReady(s: Screen, ink: Row)
    requires Laid(s, ink)
    ensures
      var t := WrapIfPending(s);
      Ready(t, ink) && t.w == s.w && t.cur.x == Col(|ink|, s.w)
  {
    LaidColumn(s, ink);
    if s.cur.pending {
      WrapIsReady(s, ink);
      WrapKeepsSize(s);
      LaidColumn(WrapLine(s), ink);
    }
  }

  lemma WrappedColumn(t: Screen)
    requires Default(t) && 0 <= t.cur.x < t.w && 0 <= t.cur.y < t.h
    ensures WrapWide(t).cur.x == 0 && WrapWide(t).w == t.w
  {
    var blank := VtScreen.Write(t, t.cur.x, Inked(SPACE));
    ScrollFrame(blank.(cur := Cursor(blank.cur.y + 1, 0, false)));
  }

  lemma PutNarrow(t: Screen, rune: nat)
    requires Default(t) && !t.cur.pending
    ensures PutGlyph(t, rune, 1) == Advance(Ink(t, rune, 1))
  {}

  lemma PutWide(t: Screen, rune: nat)
    requires Default(t) && !t.cur.pending && 0 <= t.cur.x < t.w - 1
    ensures PutGlyph(t, rune, 2) == Advance(Ink(t, rune, 2))
  {}

  lemma PutWideAtEdge(t: Screen, rune: nat)
    requires Default(t) && !t.cur.pending && t.cur.x == t.w - 1 && Default(WrapWide(t))
    ensures PutGlyph(t, rune, 2) == Advance(Ink(WrapWide(t), rune, 2))
  {}

  lemma EdgeIsLaid(t: Screen, ink: Row, rune: nat)
    requires Ready(t, ink) && t.cur.x == Col(|ink|, t.w) == t.w - 1 && t.w >= 2
    ensures Laid(PutGlyph(t, rune, 2), ink + CellsFor(Printed(rune, true), |ink|, t.w))
  {
    WrapWideIsReady(t, ink);
    WrappedColumn(t);
    PutWideAtEdge(t, rune);
    WideIsLaid(WrapWide(t), ink + [Inked(SPACE)], rune);
    assert ink + [Inked(SPACE)] + [Inked(rune), Inked(0)] == ink + CellsFor(Printed(rune, true), |ink|, t.w);
  }

  lemma ReadyIsLaid(t: Screen, ink: Row, g: Printed)
    requires Ready(t, ink) && t.cur.x == Col(|ink|, t.w) && (t.w >= 2 || !g.wide)
    ensures Laid(PutGlyph(t, g.rune, if g.wide then 2 else 1), ink + CellsFor(g, |ink|, t.w))
  {
    if !g.wide {
      PutNarrow(t, g.rune);
      NarrowIsLaid(t, ink, g.rune);
    } else if t.cur.x < t.w - 1 {
      PutWide(t, g.rune);
      WideIsLaid(t, ink, g.rune);
    } else {
      EdgeIsLaid(t, ink, g.rune);
    }
  }

  lemma PutStartsReady(s: Screen, rune: nat, width: nat)
    requires width > 0 && !WrapIfPending(s).cur.pending
    ensures PutGlyph(s, rune, width) == PutGlyph(WrapIfPending(s), rune, width)
  {
    assert PutWrapped(s, width) == PutWrapped(WrapIfPending(s), width);
  }

  /** One rune more on a screen that holds a text. */
  lemma PutIsLaid(s: Screen, ink: Row, g: Printed)
    requires Laid(s, ink) && (s.w >= 2 || !g.wide)
    ensures Laid(PutGlyph(s, g.rune, if g.wide then 2 else 1), ink + CellsFor(g, |ink|, s.w))
  {
    StartsReady(s, ink);
    PutStartsReady(s, g.rune, if g.wide then 2 else 1);
    ReadyIsLaid(WrapIfPending(s), ink, g);
  }

  lemma WrappedKeepsSize(s: Screen, width: nat)
    ensures PutWrapped(s, width).h == s.h && PutWrapped(s, width).w == s.w
  {
    var t := WrapIfPending(s);
    WrapKeepsSize(s);
    WrapKeepsSize(VtScreen.Write(t, t.cur.x, Cell(SPACE, t.pen.style, [], false, false)));
  }

  lemma InkKeepsRest(t: Screen, rune: nat, width: nat)
    ensures
      var u := Advance(Ink(if t.modes.insert then InsertChars(t, width) else t, rune, width));
      u.h == t.h && u.w == t.w && u.history == t.history
  {}

  /** Past any wrapping, printing moves no row. */
  lemma PutKeepsSize(s: Screen, rune: nat, width: nat)
    requires width > 0
    ensures PutGlyph(s, rune, width).h == s.h && PutGlyph(s, rune, width).w == s.w
    ensures PutGlyph(s, rune, width).history == PutWrapped(s, width).history
  {
    WrappedKeepsSize(s, width);
    InkKeepsRest(PutWrapped(s, width), rune, width);
  }

  lemma {:induction false} PrintingLaysOut(h: nat, w: nat, text: Text)
    requires h >= 2 && w >= 1 && Printable(text, w)
    ensures Laid(PrintAll(New(h, w), text), Stream(text, w))
    ensures PrintAll(New(h, w), text).h == h && PrintAll(New(h, w), text).w == w
    decreases |text|
  {
    if text == [] {
      var s := New(h, w);
      BlankCells(h, w);
      forall r: nat | r < Off(s) + |s.cells| ensures CanvasRow(s, r) == Line([], s.w, r) {}
    } else {
      var before, g := text[..|text| - 1], text[|text| - 1];
      PrintingLaysOut(h, w, before);
      PutIsLaid(PrintAll(New(h, w), before), Stream(before, w), g);
      PutKeepsSize(PrintAll(New(h, w), before), g.rune, if g.wide then 2 else 1);
    }
  }

  // --- reading it back ------------------------------------------------------------------------------

  /** Whether the row below a canvas row continues it: remembered for a row that has
      scrolled off, the wrap flag below it for a row on the screen. */
  predicate ContinuesBelow(s: Screen, r: nat)
    requires r < Off(s) + |s.cells|
  {
    if r < Off(s) then s.history.drained[r].continues else FlagAt(s.wrapped, r - Off(s) + 1)
  }

  /** The text of the runs of a row, empty past the last row. */
  function RowText(s: Screen, r: nat): seq<int> {
    if r < Off(s) + |s.cells| then Glyphs(ShownCells(CanvasRow(s, r), ContinuesBelow(s, r))) else []
  }

  function RowTexts(s: Screen): (lines: seq<seq<int>>)
    ensures |lines| == Off(s) + |s.cells|
    ensures forall r: nat :: r < |lines| ==> lines[r] == RowText(s, r)
  {
    seq(Off(s) + |s.cells|, r requires 0 <= r => RowText(s, r))
  }

  function Concat(lines: seq<seq<int>>, k: nat): seq<int>
    requires k <= |lines|
  {
    if k == 0 then [] else Concat(lines, k - 1) + lines[k - 1]
  }

  function ScreenText(s: Screen): seq<int> { Concat(RowTexts(s), Off(s) + |s.cells|) }

  predicate Blanks(spelt: seq<int>, i: nat) { forall k :: i <= k < |spelt| ==> spelt[k] == SPACE }

  lemma ContinuationsAreFlagged(s: Screen, ink: Row, last: nat, r: nat)
    requires Drawn(s, ink, last) && r < Off(s) + |s.cells|
    ensures ContinuesBelow(s, r) <==> r < last
  {
    if r >= Off(s) && r - Off(s) + 1 < s.h {
      assert s.wrapped[r - Off(s) + 1] <==> 0 < r + 1 <= last;
    }
  }

  lemma FullLineReads(ink: Row, w: nat, at: nat)
    requires at + w <= |ink|
    ensures Glyphs(LineAt(ink, w, at)) == Glyphs(ink)[at..at + w]
  {
    var l := LineAt(ink, w, at);
    forall c: nat | c < w ensures Glyphs(l)[c] == Glyphs(ink)[at..at + w][c] {}
  }

  lemma LastLineReads(ink: Row, w: nat, at: nat)
    requires at <= |ink| <= at + w
    ensures
      var m := TrimmedLength(LineAt(ink, w, at));
      at + m <= |ink| && Glyphs(LineAt(ink, w, at)[..m]) == Glyphs(ink)[at..at + m] && Blanks(Glyphs(ink), at + m)
  {
    var l := LineAt(ink, w, at);
    var m := TrimmedLength(l);
    assert at + m <= |ink| by {
      if m > 0 { assert l[m - 1] == CellFor(ink, at + (m - 1)); }
    }
    forall c: nat | c < m ensures Glyphs(l[..m])[c] == Glyphs(ink)[at..at + m][c] {}
    forall k | at + m <= k < |ink| ensures Glyphs(ink)[k] == SPACE {
      assert Trimmable(l[k - at]);
    }
  }

  lemma EmptyLineReads(ink: Row, w: nat, at: nat)
    requires |ink| <= at
    ensures Glyphs(ShownCells(LineAt(ink, w, at), false)) == []
  {
    var l := LineAt(ink, w, at);
    assert forall c: nat :: c < w ==> l[c] == BLANK;
  }

  /** Where the text ends once the last line's trailing blanks are gone. */
  function End(ink: Row, w: nat, last: nat): nat { Start(w, last) + TrimmedLength(Line(ink, w, last)) }

  /** A full line, or the last one cut at `end`, or nothing. */
  predicate Reads(line: seq<int>, spelt: seq<int>, w: nat, last: nat, end: nat, r: nat) {
    var at := Start(w, r);
    if r < last then at + w <= |spelt| && line == spelt[at..at + w]
    else if r == last then at <= end <= |spelt| && line == spelt[at..end]
    else line == []
  }

  ghost predicate AllRead(lines: seq<seq<int>>, spelt: seq<int>, w: nat, last: nat, end: nat) {
    forall r: nat :: r < |lines| ==> Reads(lines[r], spelt, w, last, end, r)
  }

  lemma {:induction false} ConcatReads(lines: seq<seq<int>>, spelt: seq<int>, w: nat, last: nat, end: nat, k: nat)
    requires end <= |spelt| && k <= |lines| && AllRead(lines, spelt, w, last, end)
    ensures k <= last ==> Start(w, k) <= |spelt| && Concat(lines, k) == spelt[..Start(w, k)]
    ensures k > last ==> Concat(lines, k) == spelt[..end]
    decreases k
  {
    if k > 0 {
      ConcatReads(lines, spelt, w, last, end, k - 1);
      var at := Start(w, k - 1);
      assert Reads(lines[k - 1], spelt, w, last, end, k - 1);
      if k - 1 < last {
        assert spelt[..at] + spelt[at..at + w] == spelt[..at + w];
      } else if k - 1 == last {
        assert spelt[..at] + spelt[at..end] == spelt[..end];
      }
    }
  }

  /** One row of a screen that holds a text. */
  lemma RowReads(s: Screen, ink: Row, last: nat, r: nat)
    requires Drawn(s, ink, last) && r < Off(s) + |s.cells|
    requires Start(s.w, last) <= |ink| <= Start(s.w, last) + s.w
    ensures Reads(RowText(s, r), Glyphs(ink), s.w, last, End(ink, s.w, last), r)
  {
    var at := Start(s.w, r);
    ContinuationsAreFlagged(s, ink, last, r);
    assert CanvasRow(s, r) == Line(ink, s.w, r);
    if r < last {
      StartsGrow(s.w, r + 1, last);
      FullLineReads(ink, s.w, at);
    } else if r == last {
      LastLineReads(ink, s.w, at);
    } else {
      StartsGrow(s.w, last + 1, r);
      EmptyLineReads(ink, s.w, at);
    }
  }

  lemma RowsRead(s: Screen, ink: Row, last: nat)
    requires Drawn(s, ink, last)
    requires Start(s.w, last) <= |ink| <= Start(s.w, last) + s.w
    ensures AllRead(RowTexts(s), Glyphs(ink), s.w, last, End(ink, s.w, last))
  {
    var lines := RowTexts(s);
    forall r: nat | r < |lines| ensures Reads(lines[r], Glyphs(ink), s.w, last, End(ink, s.w, last), r) {
      RowReads(s, ink, last, r);
    }
  }

  /** The run text of the rows scrolled off and then of the rows on the screen is what the
      text's cells spell, less trailing blanks; a row is flagged exactly when the text runs
      on into it from the row above. */
  lemma AutowrapRoundTrip(h: nat, w: nat, text: Text)
    requires h >= 2 && w >= 1 && Printable(text, w)
    ensures
      var s := PrintAll(New(h, w), text);
      var out, spelt := ScreenText(s), Glyphs(Stream(text, w));
      && |out| <= |spelt| && out == spelt[..|out|] && Blanks(spelt, |out|)
      && |s.wrapped| == h && 0 <= s.cur.y
      && forall y: nat :: y < h ==> (s.wrapped[y] <==> 0 < Off(s) + y <= Off(s) + s.cur.y)
  {
    PrintingLaysOut(h, w, text);
    LaidReadsBack(PrintAll(New(h, w), text), Stream(text, w));
  }

  /** The runes of a text, with a space before each wide one that did not fit its line. */
  function Spelt(text: Text, w: nat): seq<int>
    requires w >= 1
    decreases |text|
  {
    if text == [] then []
    else
      var before, g := text[..|text| - 1], text[|text| - 1];
      Spelt(before, w)
      + if g.wide && Col(|Stream(before, w)|, w) == w - 1 then [SPACE as int, g.rune as int] else [g.rune as int]
  }

  /** What a text's cells spell without the marks of second halves. */
  function Visible(spelt: seq<int>): seq<int>
    decreases |spelt|
  {
    if spelt == [] then []
    else
      var n := |spelt| - 1;
      Visible(spelt[..n]) + if spelt[n] == CONTINUATION then [] else [spelt[n]]
  }

  predicate Real(text: Text) { forall i :: 0 <= i < |text| ==> text[i].rune != 0 && text[i].rune != CONTINUATION }

  lemma {:induction false} VisibleAppend(a: seq<int>, b: seq<int>)
    ensures Visible(a + b) == Visible(a) + Visible(b)
    decreases |b|
  {
    if b == [] {
      assert a + b == a;
    } else {
      var n := |b| - 1;
      assert (a + b)[..|a| + n] == a + b[..n];
      VisibleAppend(a, b[..n]);
    }
  }

  /** The marks of second halves apart, the cells of a text spell its runes and those spaces. */
  lemma {:induction false} StreamSpells(text: Text, w: nat)
    requires w >= 1 && Real(text)
    ensures Visible(Glyphs(Stream(text, w))) == Spelt(text, w)
    decreases |text|
  {
    if text != [] {
      var before, g := text[..|text| - 1], text[|text| - 1];
      StreamSpells(before, w);
      var ink := Stream(before, w);
      var more := CellsFor(g, |ink|, w);
      assert Glyphs(ink + more) == Glyphs(ink) + Glyphs(more);
      VisibleAppend(Glyphs(ink), Glyphs(more));
      CellsSpell(g);
    }
  }

  lemma CellsSpell(g: Printed)
    requires g.rune != 0 && g.rune != CONTINUATION
    ensures Visible(Glyphs([Inked(g.rune)])) == [g.rune as int]
    ensures Visible(Glyphs([Inked(g.rune), Inked(0)])) == [g.rune as int]
    ensures Visible(Glyphs([Inked(SPACE), Inked(g.rune), Inked(0)])) == [SPACE as int, g.rune as int]
  {
    var one: seq<int> := [g.rune as int];
    assert Glyphs([Inked(g.rune)]) == one && one[..0] == [];
    var two: seq<int> := [g.rune as int, CONTINUATION];
    assert Glyphs([Inked(g.rune), Inked(0)]) == two && two[..1] == one;
    var pad: seq<int> := [SPACE as int];
    assert pad[..0] == [] && Visible(pad) == pad;
    VisibleAppend(pad, two);
    assert Glyphs([Inked(SPACE), Inked(g.rune), Inked(0)]) == pad + two;
  }

  lemma LaidReadsBack(s: Screen, ink: Row)
    requires Laid(s, ink)
    ensures var out, spelt := ScreenText(s), Glyphs(ink); |out| <= |spelt| && out == spelt[..|out|] && Blanks(spelt, |out|)
  {
    var last := Off(s) + s.cur.y;
    LastLine(s, ink, last);
    DrawnReadsBack(s, ink, last);
  }

  lemma DrawnReadsBack(s: Screen, ink: Row, last: nat)
    requires Drawn(s, ink, last) && last < Off(s) + |s.cells|
    requires Start(s.w, last) <= |ink| <= Start(s.w, last) + s.w
    ensures End(ink, s.w, last) <= |ink| && ScreenText(s) == Glyphs(ink)[..End(ink, s.w, last)]
    ensures Blanks(Glyphs(ink), End(ink, s.w, last))
  {
    LastLineEnds(ink, s.w, last);
    RowsRead(s, ink, last);
    AllReadBack(s, ink, last);
  }

  lemma LastLineEnds(ink: Row, w: nat, last: nat)
    requires Start(w, last) <= |ink| <= Start(w, last) + w
    ensures End(ink, w, last) <= |ink| && Blanks(Glyphs(ink), End(ink, w, last))
  {
    LastLineReads(ink, w, Start(w, last));
  }

  lemma AllReadBack(s: Screen, ink: Row, last: nat)
    requires last < Off(s) + |s.cells| && End(ink, s.w, last) <= |ink|
    requires AllRead(RowTexts(s), Glyphs(ink), s.w, last, End(ink, s.w, last))
    ensures ScreenText(s) == Glyphs(ink)[..End(ink, s.w, last)]
  {
    ConcatReads(RowTexts(s), Glyphs(ink), s.w, last, End(ink, s.w, last), Off(s) + |s.cells|);
  }

  lemma LastLine(s: Screen, ink: Row, last: int)
    requires Laid(s, ink) && last == Off(s) + s.cur.y
    ensures 0 <= last < Off(s) + |s.cells| && Drawn(s, ink, last)
    ensures Start(s.w, last) <= |ink| <= Start(s.w, last) + s.w
  {
  }
}
