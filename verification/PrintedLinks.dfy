/** Text the terminal wraps is scanned for links as it was printed: every row it lies on,
    and up to three rows above the screen, join to the text itself. */
module PrintedLinks {
  import opened Prelude
  import opened VtCells
  import opened VtAutowrap
  import opened Wire
  import opened WireLinks
  import opened WireChains
  import V = VtScreen

  /** What is kept for joining is the last rows that scrolled off. */
  predicate TailFollows(s: V.Screen) {
    var tail, drained := s.history.tail, s.history.drained;
    && |tail| == Min(|drained|, V.TAIL_ROWS)
    && forall i: nat :: i < |tail| ==> tail[i] == drained[|drained| - |tail| + i].cells
  }

  lemma ScrollFollows(s: V.Screen, ink: Row)
    requires Full(s, ink) && s.cur.y == s.h - 1 && TailFollows(s)
    ensures TailFollows(V.ScrollUpOnce(s))
  {
    ScrolledOff(s, ink);
  }

  lemma WrapFollows(s: V.Screen, ink: Row)
    requires Full(s, ink) && TailFollows(s)
    ensures TailFollows(V.WrapLine(s))
  {
    if s.cur.y == s.h - 1 {
      WrapScrolls(s);
      assert V.WrapLine(s).history == V.ScrollUpOnce(s).history;
      ScrollFollows(s, ink);
    } else {
      StepIsReady(s, ink);
    }
  }

  lemma WrapWideFollows(s: V.Screen, ink: Row)
    requires Ready(s, ink) && s.cur.x == s.w - 1 && TailFollows(s)
    ensures TailFollows(V.WrapWide(s))
  {
    var blank := V.Write(s, s.cur.x, Inked(SPACE));
    var full := blank.(cur := blank.cur.(pending := true));
    WriteIsLaid(s, full, ink, Inked(SPACE));
    WrapFollows(full, ink + [Inked(SPACE)]);
    WrapIgnoresPending(blank, true);
  }

  lemma WrappedFollows(s: V.Screen, ink: Row, wide: bool)
    requires Laid(s, ink) && TailFollows(s) && (s.w >= 2 || !wide)
    ensures TailFollows(V.PutWrapped(s, if wide then 2 else 1))
  {
    var t := V.WrapIfPending(s);
    if s.cur.pending {
      WrapIsReady(s, ink);
      WrapFollows(s, ink);
    }
    if wide && t.cur.x == t.w - 1 { WrapWideFollows(t, ink); }
  }

  lemma PutFollows(s: V.Screen, ink: Row, g: Printed)
    requires Laid(s, ink) && TailFollows(s) && (s.w >= 2 || !g.wide)
    ensures TailFollows(V.PutGlyph(s, g.rune, if g.wide then 2 else 1))
  {
    WrappedFollows(s, ink, g.wide);
    PutKeepsSize(s, g.rune, if g.wide then 2 else 1);
  }

  lemma {:induction false} PrintingKeepsTail(h: nat, w: nat, text: Text)
    requires h >= 2 && w >= 1 && Printable(text, w)
    ensures TailFollows(PrintAll(V.New(h, w), text))
    decreases |text|
  {
    if text != [] {
      var before := text[..|text| - 1];
      PrintingKeepsTail(h, w, before);
      PrintingLaysOut(h, w, before);
      PutFollows(PrintAll(V.New(h, w), before), Stream(before, w), text[|text| - 1]);
    }
  }

  function Texts(rows: seq<Row>): (t: seq<seq<int>>)
    ensures |t| == |rows| && forall i: nat :: i < |rows| ==> t[i] == Glyphs(rows[i])
  {
    seq(|rows|, i requires 0 <= i < |rows| => Glyphs(rows[i]))
  }

  function PageOf(s: V.Screen): Page { Page(s.cells, s.wrapped, Texts(s.history.tail)) }

  /** A flagged row goes on from the row above; a blank one below the text does not. */
  lemma {:induction false} PrintedContinues(s: V.Screen, ink: Row, last: nat, y: nat)
    requires Drawn(s, ink, last) && |ink| <= Start(s.w, last) + s.w && 0 < y < s.h
    ensures Continues(PageOf(s), y) <==> Off(s) + y <= last
  {
    var p := PageOf(s);
    assert s.wrapped[y] <==> 0 < Off(s) + y <= last;
    if Off(s) + y > last {
      StartsGrow(s.w, last + 1, Off(s) + y);
      assert CanvasRow(s, Off(s) + y) == Line(ink, s.w, Off(s) + y);
      PastTheEnd(ink, s.w, Off(s) + y);
      BlankIsNoContinuation(s.cells[y - 1], s.cells[y]);
    }
  }

  lemma BlankIsNoContinuation(prev: Row, cur: Row)
    requires forall x: nat :: x < |cur| ==> cur[x] == BLANK
    ensures !Indented(prev, cur, Leading(cur))
  {}

  lemma {:induction false} ChainOpens(s: V.Screen, ink: Row, last: nat, y: nat)
    requires Drawn(s, ink, last) && |ink| <= Start(s.w, last) + s.w && y < s.h && Off(s) + y <= last
    ensures First(PageOf(s), y) == 0
    decreases y
  {
    if y > 0 {
      PrintedContinues(s, ink, last, y);
      ChainOpens(s, ink, last, y - 1);
    }
  }

  lemma {:induction false} ChainEnds(s: V.Screen, ink: Row, last: nat, y: nat)
    requires Drawn(s, ink, last) && |ink| <= Start(s.w, last) + s.w && y < s.h && Off(s) + y <= last
    ensures Final(PageOf(s), y) == s.cur.y
    decreases last - Off(s) - y
  {
    if y + 1 < s.h { PrintedContinues(s, ink, last, y + 1); }
    if Off(s) + y < last { ChainEnds(s, ink, last, y + 1); }
  }

  /** The chain of a row the text lies on is the text, from line `from` to its last. */
  predicate ReadsFrom(p: Page, y: nat, ink: Row, w: nat, from: nat) {
    y < |p.rows| && forall i: nat :: i < |Chain(p, y)| ==> Chain(p, y)[i] == ChainRow(Glyphs(Line(ink, w, from + i)), 0)
  }

  lemma LaidTextIsOneChain(s: V.Screen, ink: Row, y: nat)
    requires Laid(s, ink) && TailFollows(s) && y <= s.cur.y
    ensures
      var above := Min(Off(s), V.TAIL_ROWS);
      && ReadsFrom(PageOf(s), y, ink, s.w, Off(s) - above)
      && |Chain(PageOf(s), y)| == above + s.cur.y + 1 && PlaceIn(PageOf(s), y) == above + y
  {
    var last := Off(s) + s.cur.y;
    ChainOpens(s, ink, last, y);
    ChainEnds(s, ink, last, y);
    KeptAbove(s, ink);
    forall i: nat | i < |Chain(PageOf(s), y)|
      ensures Chain(PageOf(s), y)[i] == ChainRow(Glyphs(Line(ink, s.w, Off(s) - Min(Off(s), V.TAIL_ROWS) + i)), 0)
    {
      PartIsLine(s, ink, i);
    }
  }

  lemma KeptAbove(s: V.Screen, ink: Row)
    requires Laid(s, ink) && TailFollows(s)
    ensures |Kept(PageOf(s), 0)| == Min(Off(s), V.TAIL_ROWS)
  {
    assert s.wrapped[0] <==> 0 < Off(s) + 0 <= Off(s) + s.cur.y;
  }

  /** One row of the whole chain: kept from above the screen, or on it. */
  lemma PartIsLine(s: V.Screen, ink: Row, i: nat)
    requires Laid(s, ink) && TailFollows(s) && i < |Whole(PageOf(s), 0, s.cur.y)|
    ensures Whole(PageOf(s), 0, s.cur.y)[i] == ChainRow(Glyphs(Line(ink, s.w, Off(s) - Min(Off(s), V.TAIL_ROWS) + i)), 0)
  {
    KeptAbove(s, ink);
    var above, p := Min(Off(s), V.TAIL_ROWS), PageOf(s);
    assert CanvasRow(s, Off(s) - above + i) == Line(ink, s.w, Off(s) - above + i);
    if i >= above { assert p.wrapped[i - above] <==> 0 < Off(s) + (i - above) <= Off(s) + s.cur.y; }
  }

  /** From any row the text lies on, the chain scanned is the text, line by line, from up
      to three lines above the screen to its last. */
  lemma PrintedTextIsOneChain(h: nat, w: nat, text: Text, y: nat)
    requires h >= 2 && w >= 1 && Printable(text, w) && y <= PrintAll(V.New(h, w), text).cur.y
    ensures
      var s := PrintAll(V.New(h, w), text);
      var above := Min(Off(s), V.TAIL_ROWS);
      && ReadsFrom(PageOf(s), y, Stream(text, w), w, Off(s) - above)
      && |Chain(PageOf(s), y)| == above + s.cur.y + 1 && PlaceIn(PageOf(s), y) == above + y
  {
    PrintingLaysOut(h, w, text);
    PrintingKeepsTail(h, w, text);
    LaidTextIsOneChain(PrintAll(V.New(h, w), text), Stream(text, w), y);
  }
}
