/** Rows of cells as runs for the renderer, and the links detected in them. */
module Wire {
  import opened Prelude
  import opened WireTypes
  import opened Sgr
  import opened VtCells

  type Runs = seq<WireRun>
  type CellRow = seq<Cell>

  const DEFAULT_WIRE_COLOR := -1
  const AUTOLINK: nat := 1024
  const CONTINUATION := 0xFFFF

  // --- colours and attributes -------------------------------------------------------------

  const BASIC16: seq<int> := [
    0x000000, 0xcc0403, 0x19cb00, 0xcecb00, 0x0d73cc, 0xcb1ed1, 0x0dcdcd, 0xdddddd,
    0x767676, 0xf2201f, 0x23fd00, 0xfffd00, 0x1a8fff, 0xfd28ff, 0x14ffff, 0xffffff]

  function Basic16(i: nat): int { if i < 16 then BASIC16[i] else BASIC16[7] }

  function CubeLevel(v: nat): int { if v == 0 then 0 else 55 + v * 40 }

  function Color256(i: nat): int {
    if i < 16 then Basic16(i)
    else if i < 232 then
      CubeLevel((i - 16) / 36) * 0x10000 + CubeLevel((i - 16) / 6 % 6) * 0x100 + CubeLevel((i - 16) % 6)
    else (8 + (i - 232) * 10) * 0x10101
  }

  /** A palette override wins over the built-in colour. */
  function ColorToWire(palette: map<nat, int>, c: Color): int {
    if c.kind == 1 then (if c.val in palette then palette[c.val] else Basic16(c.val))
    else if c.kind == 2 then (if c.val in palette then palette[c.val] else Color256(c.val))
    else if c.kind == 3 then c.r * 0x10000 + c.g * 0x100 + c.b
    else DEFAULT_WIRE_COLOR
  }

  function Bit(on: bool, v: nat): nat { if on then v else 0 }

  function ShapeBits(a: Attrs): (r: nat)
    ensures r < 32
  {
    Bit(a.bold, 1) + Bit(a.italic, 2) + Bit(a.underline, 4) + Bit(a.inverse, 8) + Bit(a.strikethrough, 16)
  }

  function EffectBits(a: Attrs): (r: nat)
    ensures r < 32
  {
    Bit(a.dim, 1) + Bit(a.hidden, 2) + Bit(a.blink, 4) + Bit(a.overline, 8) + Bit(a.doubleUnderline, 16)
  }

  /** Ten bits, all below the link bit. */
  function AttrBits(a: Attrs): (r: nat)
    ensures r < AUTOLINK
  {
    ShapeBits(a) + 32 * EffectBits(a)
  }

  function MakeRun(palette: map<nat, int>, text: seq<int>, st: Style, url: seq<int>): WireRun {
    WireRun(text, url,
            ColorToWire(palette, if st.attrs.inverse then st.bg else st.fg),
            ColorToWire(palette, if st.attrs.inverse then st.fg else st.bg),
            ColorToWire(palette, st.underlineColor), AttrBits(st.attrs))
  }

  // --- what a list of runs says, column by column -------------------------------------------

  /** A run of one column each. */
  function Expand(runs: Runs): Runs
    decreases |runs|
  {
    if runs == [] then [] else Columns(runs[0], runs[0].text) + Expand(runs[1..])
  }

  function Columns(run: WireRun, text: seq<int>): (cols: Runs)
    ensures |cols| == |text|
  {
    if text == [] then []
    else
      var n := |text| - 1;
      Columns(run, text[..n]) + [run.(text := [text[n]])]
  }

  lemma {:induction false} ExpandAppend(a: Runs, b: Runs)
    ensures Expand(a + b) == Expand(a) + Expand(b)
    decreases |a|
  {
    if a == [] {
      assert a + b == b;
    } else {
      assert (a + b)[1..] == a[1..] + b;
      ExpandAppend(a[1..], b);
    }
  }

  lemma ExpandSnoc(a: Runs, run: WireRun)
    ensures Expand(a + [run]) == Expand(a) + Columns(run, run.text)
  {
    ExpandAppend(a, [run]);
    assert [run][1..] == [];
    assert Expand([run]) == Columns(run, run.text) + [];
  }

  lemma {:induction false} ColumnsAppend(run: WireRun, a: seq<int>, b: seq<int>)
    ensures Columns(run, a + b) == Columns(run, a) + Columns(run, b)
    decreases |b|
  {
    if b == [] {
      assert a + b == a;
    } else {
      var n := |b| - 1;
      assert (a + b)[..|a| + n] == a + b[..n];
      ColumnsAppend(run, a, b[..n]);
    }
  }

  /** Only the pen of a run matters to its columns, not the text it was built with. */
  lemma {:induction false} ColumnsIgnoreText(run: WireRun, other: seq<int>, text: seq<int>)
    ensures Columns(run.(text := other), text) == Columns(run, text)
    decreases |text|
  {
    if text != [] { ColumnsIgnoreText(run, other, text[..|text| - 1]); }
  }

  // --- cells to runs ------------------------------------------------------------------------

  predicate Trimmable(c: Cell) { c.ch == SPACE && c.style == PLAIN && c.link == [] }

  /** How many columns of a row are left once its trailing blanks are gone. */
  function TrimmedLength(row: CellRow): (n: nat)
    ensures n <= |row|
    ensures forall i :: n <= i < |row| ==> Trimmable(row[i])
    ensures n > 0 ==> !Trimmable(row[n - 1])
  {
    if row == [] then 0
    else if Trimmable(row[|row| - 1]) then TrimmedLength(row[..|row| - 1])
    else |row|
  }

  function ShownCells(row: CellRow, continuesBelow: bool): CellRow {
    if continuesBelow then row else row[..TrimmedLength(row)]
  }

  method TrimTrailingBlanks(row: CellRow) returns (kept: CellRow)
    ensures kept == row[..TrimmedLength(row)]
  {
    var n := |row|;
    while n > 0 && Trimmable(row[n - 1])
      invariant 0 <= n <= |row|
      invariant TrimmedLength(row) == TrimmedLength(row[..n])
    {
      assert row[..n][..n - 1] == row[..n - 1];
      n := n - 1;
    }
    return row[..n];
  }

  function Glyph(c: Cell): int { if c.ch == 0 then CONTINUATION else c.ch }

  /** How a run is made of text, style and link. */
  type Maker = (seq<int>, Style, seq<int>) -> WireRun

  function Paints(palette: map<nat, int>): Maker { (text, st, url) => MakeRun(palette, text, st, url) }

  /** The text of a run has no part in its colours. */
  ghost predicate Lawful(make: Maker) {
    forall text, st, url :: make(text, st, url) == make([], st, url).(text := text)
  }

  /** The text of a row, a code point to each column. */
  function Glyphs(row: CellRow): (g: seq<int>)
    ensures |g| == |row|
    ensures forall i :: 0 <= i < |row| ==> g[i] == Glyph(row[i])
  {
    seq(|row|, i requires 0 <= i < |row| => Glyph(row[i]))
  }

  /** What a row of cells shows on the wire, a run to each cell. */
  function PaintedRow(make: Maker, row: CellRow): (r: Runs)
    ensures |r| == |row|
  {
    if row == [] then []
    else
      var n := |row| - 1;
      PaintedRow(make, row[..n]) + [make([Glyph(row[n])], row[n].style, row[n].link)]
  }

  predicate SamePen(a: Cell, b: Cell) { a.style == b.style && a.link == b.link }

  /** No run is empty. */
  predicate Solid(runs: Runs) { forall i :: 0 <= i < |runs| ==> runs[i].text != [] }

  /** The columns at which a new run starts. */
  function Breaks(row: CellRow): nat {
    if |row| <= 1 then |row|
    else Breaks(row[..|row| - 1]) + if SamePen(row[|row| - 2], row[|row| - 1]) then 0 else 1
  }

  /** The finished runs and the one being collected say what the first columns show. */
  ghost predicate Collected(make: Maker, runs: Runs, pen: Cell, text: seq<int>, shown: CellRow) {
    Expand(runs) + Columns(make([], pen.style, pen.link), text) == PaintedRow(make, shown)
  }

  lemma GrowRun(make: Maker, runs: Runs, pen: Cell, text: seq<int>, shown: CellRow, cell: Cell)
    requires Lawful(make) && Collected(make, runs, pen, text, shown) && SamePen(pen, cell)
    ensures Collected(make, runs, pen, text + [Glyph(cell)], shown + [cell])
  {
    var grown, more := text + [Glyph(cell)], shown + [cell];
    assert grown[..|text|] == text && more[..|shown|] == shown;
    assert make([Glyph(cell)], cell.style, cell.link) == make([], cell.style, cell.link).(text := [Glyph(cell)]);
  }

  lemma CloseRun(make: Maker, runs: Runs, pen: Cell, text: seq<int>, shown: CellRow, next: Cell)
    requires Lawful(make) && Collected(make, runs, pen, text, shown)
    ensures Collected(make, runs + [make(text, pen.style, pen.link)], next, [], shown)
    ensures Expand(runs + [make(text, pen.style, pen.link)]) == PaintedRow(make, shown)
  {
    var run := make(text, pen.style, pen.link);
    assert run == make([], pen.style, pen.link).(text := text);
    assert run.(text := []) == make([], pen.style, pen.link).(text := []);
    assert make([], pen.style, pen.link) == make([], pen.style, pen.link).(text := []);
    ExpandSnoc(runs, run);
    ColumnsIgnoreText(run, [], text);
  }

  lemma OneMoreBreak(row: CellRow, x: nat)
    requires 0 < x < |row|
    ensures Breaks(row[..x + 1]) == Breaks(row[..x]) + if SamePen(row[x - 1], row[x]) then 0 else 1
  {
    assert row[..x + 1][..x] == row[..x];
  }

  /** Where the loop stands after `x` columns. */
  ghost predicate Progress(make: Maker, runs: Runs, pen: Cell, text: seq<int>, row: CellRow, x: nat)
    requires 0 < x <= |row|
  {
    && SamePen(pen, row[x - 1]) && |runs| + 1 == Breaks(row[..x])
    && Collected(make, runs, pen, text, row[..x])
  }

  lemma SamePenGoesOn(make: Maker, runs: Runs, pen: Cell, text: seq<int>, row: CellRow, x: nat)
    requires Lawful(make) && 0 < x < |row| && Progress(make, runs, pen, text, row, x) && SamePen(row[x], pen)
    ensures Progress(make, runs, pen, text + [Glyph(row[x])], row, x + 1)
  {
    OneMoreBreak(row, x);
    assert row[..x + 1] == row[..x] + [row[x]];
    GrowRun(make, runs, pen, text, row[..x], row[x]);
  }

  lemma NewPenStartsOver(make: Maker, runs: Runs, pen: Cell, text: seq<int>, row: CellRow, x: nat)
    requires Lawful(make) && 0 < x < |row| && Progress(make, runs, pen, text, row, x) && !SamePen(row[x], pen)
    ensures Progress(make, runs + [make(text, pen.style, pen.link)], row[x], [Glyph(row[x])], row, x + 1)
  {
    OneMoreBreak(row, x);
    assert row[..x + 1] == row[..x] + [row[x]];
    CloseRun(make, runs, pen, text, row[..x], row[x]);
    GrowRun(make, runs + [make(text, pen.style, pen.link)], row[x], [], row[..x], row[x]);
    assert [] + [Glyph(row[x])] == [Glyph(row[x])];
  }

  lemma FirstCell(make: Maker, row: CellRow)
    requires Lawful(make) && row != []
    ensures Progress(make, [], row[0], [Glyph(row[0])], row, 1)
  {
    var none: Runs, noText: seq<int>, noCells: CellRow := [], [], [];
    assert Collected(make, none, row[0], noText, noCells);
    GrowRun(make, none, row[0], noText, noCells, row[0]);
    assert row[..1] == noCells + [row[0]];
    assert noText + [Glyph(row[0])] == [Glyph(row[0])];
  }

  lemma LastRun(make: Maker, runs: Runs, pen: Cell, text: seq<int>, row: CellRow)
    requires Lawful(make) && row != [] && Progress(make, runs, pen, text, row, |row|)
    ensures Expand(runs + [make(text, pen.style, pen.link)]) == PaintedRow(make, row)
    ensures |runs + [make(text, pen.style, pen.link)]| == Breaks(row)
  {
    assert row[..|row|] == row;
    CloseRun(make, runs, pen, text, row, pen);
  }

  lemma KeepsText(make: Maker, text: seq<int>, pen: Cell)
    requires Lawful(make)
    ensures make(text, pen.style, pen.link).text == text
  {
    assert make(text, pen.style, pen.link) == make([], pen.style, pen.link).(text := text);
  }

  /** One new run wherever the pen changes. */
  method Coalesce(make: Maker, row: CellRow) returns (runs: Runs)
    requires Lawful(make)
    ensures Expand(runs) == PaintedRow(make, row) && |runs| == Breaks(row) && Solid(runs)
  {
    runs := [];
    if row == [] { return; }
    var pen := row[0];
    var text := [Glyph(pen)];
    FirstCell(make, row);
    for x := 1 to |row|
      invariant Progress(make, runs, pen, text, row, x)
      invariant text != [] && Solid(runs)
    {
      if SamePen(row[x], pen) {
        SamePenGoesOn(make, runs, pen, text, row, x);
        text := text + [Glyph(row[x])];
      } else {
        NewPenStartsOver(make, runs, pen, text, row, x);
        KeepsText(make, text, pen);
        runs := runs + [make(text, pen.style, pen.link)];
        text := [Glyph(row[x])];
        pen := row[x];
      }
    }
    LastRun(make, runs, pen, text, row);
    KeepsText(make, text, pen);
    runs := runs + [make(text, pen.style, pen.link)];
  }

  /** The runs expand to exactly the row shown, cell by cell, there is a new run only where
      the pen changes, and none is empty. */
  method CellsToRuns(palette: map<nat, int>, cells: CellRow, continuesBelow: bool) returns (runs: Runs)
    ensures Expand(runs) == PaintedRow(Paints(palette), ShownCells(cells, continuesBelow))
    ensures |runs| == Breaks(ShownCells(cells, continuesBelow)) && Solid(runs)
  {
    var row := cells;
    if !continuesBelow { row := TrimTrailingBlanks(row); }
    runs := Coalesce(Paints(palette), row);
  }

  // --- what the runs spell --------------------------------------------------------------------

  function Texts(runs: Runs): seq<int>
    decreases |runs|
  {
    if runs == [] then [] else runs[0].text + Texts(runs[1..])
  }

  lemma {:induction false} TextsAppend(a: Runs, b: Runs)
    ensures Texts(a + b) == Texts(a) + Texts(b)
    decreases |a|
  {
    if a == [] {
      assert a + b == b;
    } else {
      assert (a + b)[1..] == a[1..] + b;
      TextsAppend(a[1..], b);
    }
  }

  lemma {:induction false} ColumnsSpell(run: WireRun, text: seq<int>)
    ensures Texts(Columns(run, text)) == text
    decreases |text|
  {
    if text != [] {
      var n := |text| - 1;
      ColumnsSpell(run, text[..n]);
      var one: Runs := [run.(text := [text[n]])];
      TextsAppend(Columns(run, text[..n]), one);
      assert one[1..] == [] && Texts(one) == [text[n]];
    }
  }

  lemma {:induction false} ExpandSpells(runs: Runs)
    ensures Texts(Expand(runs)) == Texts(runs)
    decreases |runs|
  {
    if runs != [] {
      ExpandSpells(runs[1..]);
      ColumnsSpell(runs[0], runs[0].text);
      TextsAppend(Columns(runs[0], runs[0].text), Expand(runs[1..]));
    }
  }

  lemma {:induction false} PaintedSpells(make: Maker, row: CellRow)
    requires Lawful(make)
    ensures Texts(PaintedRow(make, row)) == Glyphs(row)
    decreases |row|
  {
    if row != [] {
      var n := |row| - 1;
      var last := make([Glyph(row[n])], row[n].style, row[n].link);
      assert last == make([], row[n].style, row[n].link).(text := [Glyph(row[n])]);
      PaintedSpells(make, row[..n]);
      var one: Runs := [last];
      TextsAppend(PaintedRow(make, row[..n]), one);
      assert one[1..] == [] && Texts(one) == [Glyph(row[n])];
      assert Glyphs(row) == Glyphs(row[..n]) + [Glyph(row[n])];
    }
  }

  /** Runs that expand to a painted row spell that row. */
  lemma RunsSpellTheRow(palette: map<nat, int>, runs: Runs, row: CellRow)
    requires Expand(runs) == PaintedRow(Paints(palette), row)
    ensures Texts(runs) == Glyphs(row)
  {
    ExpandSpells(runs);
    PaintedSpells(Paints(palette), row);
  }

  /** One column of a painted row: the glyph, style and link of its cell and nothing else. */
  lemma {:induction false} PaintedAt(make: Maker, row: CellRow, i: nat)
    requires i < |row|
    ensures PaintedRow(make, row)[i] == make([Glyph(row[i])], row[i].style, row[i].link)
    decreases |row|
  {
    if i < |row| - 1 { PaintedAt(make, row[..|row| - 1], i); }
  }
}
