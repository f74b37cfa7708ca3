/** What a reader makes of a run: the colours, attributes, link and glyphs of the cells it
    was made from. The bits and packings here are those of the renderer's side. */
module WireReader {
  import opened Prelude
  import opened WireTypes
  import opened Sgr
  import opened VtCells
  import opened Wire
  import R = RowRender

  // --- the reader --------------------------------------------------------------------------

  /** Bit `v` of a mask, `v` a power of two. */
  predicate Has(mask: nat, v: nat)
    requires v > 0
  {
    mask / v % 2 == 1
  }

  function ReadAttrs(mask: nat): Attrs {
    Attrs(Has(mask, 1), Has(mask, 32), Has(mask, 2), Has(mask, 4), Has(mask, 512), Has(mask, 256),
          Has(mask, 128), Has(mask, 8), Has(mask, 16), Has(mask, 64))
  }

  /** A packed colour; -1 is the theme's own. */
  function ReadColor(v: int): Color {
    if v < 0 then DEFAULT_COLOR else Color(3, 0, v / 0x10000 % 0x100, v / 0x100 % 0x100, v % 0x100)
  }

  /** The pen a run was painted with: the reader paints foreground and background as they
      come, so a run that says inverse carries them exchanged. */
  function ReadStyle(run: WireRun): Style {
    var a := ReadAttrs(run.attrs);
    Style(ReadColor(if a.inverse then run.bg else run.fg), ReadColor(if a.inverse then run.fg else run.bg),
          ReadColor(run.uc), a)
  }

  // --- attributes ----------------------------------------------------------------------------

  lemma ShapeReadsBack(a: Attrs)
    ensures
      var m := ShapeBits(a);
      && Has(m, 1) == a.bold && Has(m, 2) == a.italic && Has(m, 4) == a.underline && Has(m, 8) == a.inverse
      && Has(m, 16) == a.strikethrough
  {}

  lemma EffectReadsBack(a: Attrs)
    ensures
      var m := EffectBits(a);
      && Has(m, 1) == a.dim && Has(m, 2) == a.hidden && Has(m, 4) == a.blink && Has(m, 8) == a.overline
      && Has(m, 16) == a.doubleUnderline
  {}

  lemma Even(a: nat, k: nat)
    ensures (a + 2 * k) % 2 == a % 2
  {}

  lemma LowBit(low: nat, high: nat, v: nat)
    requires low < 32 && v in {1, 2, 4, 8, 16}
    ensures Has(low + 32 * high, v) == Has(low, v)
  {
    var m := low + 32 * high;
    if v == 1 {
      Even(low, 16 * high);
    } else if v == 2 {
      assert m / 2 == low / 2 + 2 * (8 * high);
      Even(low / 2, 8 * high);
    } else if v == 4 {
      assert m / 4 == low / 4 + 2 * (4 * high);
      Even(low / 4, 4 * high);
    } else if v == 8 {
      assert m / 8 == low / 8 + 2 * (2 * high);
      Even(low / 8, 2 * high);
    } else {
      assert m / 16 == low / 16 + 2 * high;
      Even(low / 16, high);
    }
  }

  lemma HighBit(low: nat, high: nat, v: nat)
    requires low < 32 && v in {1, 2, 4, 8, 16}
    ensures Has(low + 32 * high, 32 * v) == Has(high, v)
  {
    var m := low + 32 * high;
    if v == 1 {
      assert m / 32 == high;
    } else if v == 2 {
      assert m / 64 == high / 2;
    } else if v == 4 {
      assert m / 128 == high / 4;
    } else if v == 8 {
      assert m / 256 == high / 8;
    } else {
      assert m / 512 == high / 16;
    }
  }

  lemma LowBits(low: nat, high: nat, v: nat)
    requires low < 32 && v in {1, 2, 4, 8, 16}
    ensures Has(low + 32 * high, v) == Has(low, v) && Has(low + 32 * high, 32 * v) == Has(high, v)
  {
    LowBit(low, high, v);
    HighBit(low, high, v);
  }

  /** Each of the ten attributes is recovered from its own bit. */
  lemma AttrsReadBack(a: Attrs)
    ensures ReadAttrs(AttrBits(a)) == a
  {
    ShapeReadsBack(a);
    EffectReadsBack(a);
    var low, high := ShapeBits(a), EffectBits(a);
    LowBits(low, high, 1);
    LowBits(low, high, 2);
    LowBits(low, high, 4);
    LowBits(low, high, 8);
    LowBits(low, high, 16);
  }

  /** The inverse bit alone, and the link bit, which no attribute sets. */
  lemma InverseTells(a: Attrs)
    ensures Has(AttrBits(a), 8) == a.inverse && !Has(AttrBits(a), AUTOLINK)
  {
    ShapeReadsBack(a);
    LowBit(ShapeBits(a), EffectBits(a), 8);
  }

  // --- colours ---------------------------------------------------------------------------------

  /** A colour that travels as itself. */
  predicate Direct(c: Color) { ColorOk(c) && c.kind != 1 && c.kind != 2 }

  lemma ColorReadsBack(palette: map<nat, int>, c: Color)
    requires Direct(c)
    ensures ReadColor(ColorToWire(palette, c)) == c
  {
    if c.kind == 3 {
      var v := c.r * 0x10000 + c.g * 0x100 + c.b;
      assert v / 0x100 == c.r * 0x100 + c.g;
    }
  }

  /** A palette entry wins, for either kind of index. */
  lemma PaletteWins(palette: map<nat, int>, i: nat)
    requires i < 256 && i in palette
    ensures ColorToWire(palette, Basic(i)) == ColorToWire(palette, Indexed(i)) == palette[i]
  {}

  /** Without one an index stands for a fixed colour: the basic ones the same by either
      kind, then a six-level cube, then a ramp of greys. */
  lemma BasicByEitherKind(palette: map<nat, int>, i: nat)
    requires i < 16
    ensures ColorToWire(palette, Basic(i)) == ColorToWire(palette, Indexed(i))
  {}

  lemma GreyColors(palette: map<nat, int>, k: nat)
    requires k < 24 && 232 + k !in palette
    ensures ReadColor(ColorToWire(palette, Indexed(232 + k))) == Rgb(8 + 10 * k, 8 + 10 * k, 8 + 10 * k)
  {
    var n := 8 + 10 * k;
    assert Color256(232 + k) == n * 0x10000 + n * 0x100 + n;
    ColorReadsBack(palette, Rgb(n, n, n));
  }

  lemma CubeIndex(r: nat, g: nat, b: nat)
    requires r < 6 && g < 6 && b < 6
    ensures var n := 36 * r + 6 * g + b; n < 216 && n / 36 == r && n / 6 == 6 * r + g && n / 6 % 6 == g && n % 6 == b
  {}

  lemma CubeColors(palette: map<nat, int>, r: nat, g: nat, b: nat)
    requires r < 6 && g < 6 && b < 6 && 16 + 36 * r + 6 * g + b !in palette
    ensures ReadColor(ColorToWire(palette, Indexed(16 + 36 * r + 6 * g + b))) == Rgb(LEVELS[r], LEVELS[g], LEVELS[b])
  {
    var n := 36 * r + 6 * g + b;
    CubeIndex(r, g, b);
    assert CubeLevel(r) == LEVELS[r] && CubeLevel(g) == LEVELS[g] && CubeLevel(b) == LEVELS[b];
    assert ColorToWire(palette, Indexed(16 + n)) == Color256(16 + n);
    ColorReadsBack(palette, Rgb(LEVELS[r], LEVELS[g], LEVELS[b]));
  }

  const LEVELS: seq<nat> := [0, 95, 135, 175, 215, 255]

  lemma BasicColors()
    ensures ReadColor(Basic16(0)) == Rgb(0, 0, 0) && ReadColor(Basic16(15)) == Rgb(255, 255, 255)
    ensures ReadColor(Basic16(1)) == Rgb(204, 4, 3) && ReadColor(Basic16(2)) == Rgb(25, 203, 0)
    ensures ReadColor(Basic16(4)) == Rgb(13, 115, 204)
  {}

  // --- runs --------------------------------------------------------------------------------------

  predicate DirectStyle(st: Style) { Direct(st.fg) && Direct(st.bg) && Direct(st.underlineColor) }

  /** What any run says of the pen it was made with: attributes whole, and each colour of
      the pen where the reader looks for it. */
  lemma RunTells(palette: map<nat, int>, text: seq<int>, st: Style, url: seq<int>)
    ensures
      var run := MakeRun(palette, text, st, url);
      && run.text == text && run.url == url && ReadAttrs(run.attrs) == st.attrs && !Has(run.attrs, AUTOLINK)
      && (if Has(run.attrs, 8) then run.bg else run.fg) == ColorToWire(palette, st.fg)
      && (if Has(run.attrs, 8) then run.fg else run.bg) == ColorToWire(palette, st.bg)
      && run.uc == ColorToWire(palette, st.underlineColor)
  {
    AttrsReadBack(st.attrs);
    InverseTells(st.attrs);
  }

  /** With default and direct colours a reader gets the whole pen back. */
  lemma RunReadsBack(palette: map<nat, int>, text: seq<int>, st: Style, url: seq<int>)
    requires DirectStyle(st)
    ensures ReadStyle(MakeRun(palette, text, st, url)) == st
  {
    RunTells(palette, text, st, url);
    ColorReadsBack(palette, st.fg);
    ColorReadsBack(palette, st.bg);
    ColorReadsBack(palette, st.underlineColor);
  }

  /** Encoding changes nothing of that: strings go as their bytes, and the pen is read back
      from the fields of the encoded run. */
  lemma PenArrives(palette: map<nat, int>, text: seq<int>, st: Style, url: seq<int>)
    requires DirectStyle(st)
    ensures
      var e := R.Encoded(MakeRun(palette, text, st, url));
      && e.text == R.TextBytes(text) && e.url == R.TextBytes(url)
      && ReadStyle(WireRun(text, url, e.fg, e.bg, e.uc, e.attrs)) == st
  {
    RunReadsBack(palette, text, st, url);
  }

  /** Column by column, the runs of a row tell its cells: glyph, link, attributes, and where
      colours are direct the whole style. */
  lemma RowReadsBack(palette: map<nat, int>, runs: Runs, row: CellRow, i: nat)
    requires Expand(runs) == PaintedRow(Paints(palette), row) && i < |row|
    ensures
      var col := Expand(runs)[i];
      && col.text == [Glyph(row[i])] && col.url == row[i].link && ReadAttrs(col.attrs) == row[i].style.attrs
      && (DirectStyle(row[i].style) ==> ReadStyle(col) == row[i].style)
  {
    PaintedAt(Paints(palette), row, i);
    RunTells(palette, [Glyph(row[i])], row[i].style, row[i].link);
    if DirectStyle(row[i].style) { RunReadsBack(palette, [Glyph(row[i])], row[i].style, row[i].link); }
  }

  /** What is cut off a row is what a reader could not tell from a cell never written:
      unstyled, unlinked spaces. */
  lemma CutColumnsAreBlank(row: CellRow, i: nat)
    requires TrimmedLength(row) <= i < |row|
    ensures row[i].ch == SPACE && row[i].style.fg == row[i].style.bg == row[i].style.underlineColor == DEFAULT_COLOR
    ensures row[i].style.attrs == NO_ATTRS && row[i].link == []
  {}
}
