/** Rows of cells from the screen to the bytes of a frame: runs, links, UTF-8, and the
    bounds on a row that keep every history page within its budget. */
module RowRender {
  import opened Prelude
  import opened WireTypes
  import opened VtCells
  import opened Wire
  import opened WireLinks
  import opened WireChains
  import P = Parser
  import C = WireCodec

  // --- text as bytes (RFC 3629) ---------------------------------------------------------------

  predicate Scalar(cp: int) { 0 <= cp <= 0x10FFFF && !(0xD800 <= cp <= 0xDFFF) }

  function Trail(n: nat): (b: C.Byte)
    ensures C.Continues(b)
  {
    0x80 + n % 64
  }

  /** One code point; what is none is replaced. */
  function RuneBytes(cp: int): (b: C.Bytes)
    ensures 1 <= |b| <= 4
  {
    if !Scalar(cp) then [0xEF, 0xBF, 0xBD]
    else if cp < 0x80 then [cp]
    else if cp < 0x800 then [0xC0 + cp / 64, Trail(cp)]
    else if cp < 0x10000 then [0xE0 + cp / 4096, Trail(cp / 64), Trail(cp)]
    else [0xF0 + cp / 262144, Trail(cp / 4096), Trail(cp / 64), Trail(cp)]
  }

  /** What is printed by its bytes is sent as the same bytes: the terminal's own decoder
      reads them back. */
  lemma RuneReadsBack(cp: int)
    requires Scalar(cp) && cp >= 0x80 && cp != 0xFFFF
    ensures P.Decode(RuneBytes(cp)) == cp
  {
    if cp < 0x800 {
      TwoReadBack(cp);
    } else if cp < 0x10000 {
      ThreeReadBack(cp);
    } else {
      FourReadBack(cp);
    }
  }

  lemma TwoReadBack(cp: nat)
    requires 0x80 <= cp < 0x800
    ensures P.Decode([0xC0 + cp / 64, Trail(cp)]) == cp
  {
    TrailReads(cp);
  }

  lemma ThreeReadBack(cp: nat)
    requires 0x800 <= cp < 0x10000 && Scalar(cp) && cp != 0xFFFF
    ensures P.Decode([0xE0 + cp / 4096, Trail(cp / 64), Trail(cp)]) == cp
  {
    TrailReads(cp);
    TrailReads(cp / 64);
    assert cp / 4096 == cp / 64 / 64;
  }

  lemma FourReadBack(cp: nat)
    requires 0x10000 <= cp <= 0x10FFFF
    ensures P.Decode([0xF0 + cp / 262144, Trail(cp / 4096), Trail(cp / 64), Trail(cp)]) == cp
  {
    TrailReads(cp);
    TrailReads(cp / 64);
    TrailReads(cp / 4096);
    assert cp / 4096 == cp / 64 / 64 && cp / 262144 == cp / 4096 / 64;
  }

  lemma TrailReads(n: nat)
    ensures P.Low(Trail(n), 64) == n % 64 && n == n / 64 * 64 + n % 64
  {}

  lemma RuneLeads(cp: int, rest: C.Bytes)
    ensures C.Lead(RuneBytes(cp) + rest) == |RuneBytes(cp)|
  {}

  function TextBytes(text: seq<int>): C.Bytes { C.Cat(RuneBytes, text) }

  /** Encoded text is well formed, at most four bytes to a code point. */
  lemma {:induction false} TextIsWellFormed(text: seq<int>)
    ensures C.ValidUtf8(TextBytes(text)) && |TextBytes(text)| <= 4 * |text|
    decreases |text|
  {
    if text != [] {
      TextIsWellFormed(text[1..]);
      var head, rest := RuneBytes(text[0]), TextBytes(text[1..]);
      RuneLeads(text[0], rest);
      assert (head + rest)[|head|..] == rest;
    }
  }

  function Encoded(r: WireRun): C.Run { C.Run(TextBytes(r.text), TextBytes(r.url), r.fg, r.bg, r.uc, r.attrs) }

  function EncodedRuns(runs: Runs): seq<C.Run> { C.Map(Encoded, runs) }

  // --- a row of the screen -----------------------------------------------------------------------

  /** No run is empty, and together they have at most as many columns as a screen can. */
  ghost predicate FromGrid(runs: Runs) { Solid(runs) && |Expand(runs)| <= C.MAX_COLUMNS }

  lemma {:induction false} StampKeepsWidth(cols: Runs, from: int, spans: seq<Span>)
    ensures |StampAll(cols, from, spans)| == |cols|
    decreases |cols|
  {
    if cols != [] { StampKeepsWidth(cols[..|cols| - 1], from, spans); }
  }

  /** Solid runs are no more than their columns, and their text no more than four bytes to
      a column. */
  lemma {:induction false} RunsFitColumns(runs: Runs)
    requires Solid(runs)
    ensures |EncodedRuns(runs)| == |runs| <= |Expand(runs)|
    ensures C.Sum(C.TextSize, EncodedRuns(runs)) <= 4 * |Expand(runs)|
    decreases |runs|
  {
    if runs != [] {
      var n := |runs| - 1;
      var init, last := runs[..n], runs[n];
      RunsFitColumns(init);
      assert runs == init + [last];
      ExpandSnoc(init, last);
      C.MapSnoc(Encoded, init, last);
      C.SumSnoc(C.TextSize, EncodedRuns(init), Encoded(last));
      TextIsWellFormed(last.text);
      C.TruncatedFits(TextBytes(last.text));
    }
  }

  /** A row of the screen meets the bound the codec's budget rests on. */
  lemma GridRowOf(runs: Runs)
    requires FromGrid(runs)
    ensures C.GridRow(EncodedRuns(runs)) && C.SentSize(EncodedRuns(runs)) <= C.ROW_BYTE_CEILING
  {
    RunsFitColumns(runs);
    C.GridRowFits(EncodedRuns(runs));
  }

  /** Row `y` as it is rendered: its cells' runs with the links found stamped on them. */
  method RenderRow(palette: map<nat, int>, p: Page, y: nat, matches: seq<Match>) returns (runs: Runs)
    requires y < |p.rows| && |p.rows[y]| <= C.MAX_COLUMNS && SortedMatches(matches)
    ensures PlaceInWindow(p, y) < |Window(p, y)|
    ensures
      var painted := PaintedRow(Paints(palette), ShownCells(p.rows[y], y + 1 < |p.wrapped| && p.wrapped[y + 1]));
      Expand(runs) == StampAll(painted, 0, LinksOn(p, y, matches))
    ensures FromGrid(runs)
  {
    var plain := CellsToRuns(palette, p.rows[y], y + 1 < |p.wrapped| && p.wrapped[y + 1]);
    runs := StampAutolinks(p, y, plain, matches);
    StampKeepsWidth(Expand(plain), 0, LinksOn(p, y, matches));
  }

  function EncodedLines(lines: seq<Runs>): (rows: seq<seq<C.Run>>)
    ensures |rows| == |lines|
  {
    if lines == [] then [] else EncodedLines(lines[..|lines| - 1]) + [EncodedRuns(lines[|lines| - 1])]
  }

  method EncodeRows(lines: seq<Runs>) returns (rows: seq<seq<C.Run>>)
    ensures rows == EncodedLines(lines)
  {
    rows := [];
    for i := 0 to |lines|
      invariant rows == EncodedLines(lines[..i])
    {
      assert lines[..i + 1][..i] == lines[..i];
      rows := rows + [EncodedRuns(lines[i])];
    }
    assert lines[..|lines|] == lines;
  }

  lemma {:induction false} AllGridRows(lines: seq<Runs>)
    requires forall i :: 0 <= i < |lines| ==> FromGrid(lines[i])
    ensures forall i :: 0 <= i < |lines| ==> C.GridRow(EncodedLines(lines)[i])
    decreases |lines|
  {
    if lines != [] {
      var n := |lines| - 1;
      AllGridRows(lines[..n]);
      GridRowOf(lines[n]);
      OneMoreGridRow(EncodedLines(lines[..n]), EncodedRuns(lines[n]));
    }
  }

  lemma OneMoreGridRow(rows: seq<seq<C.Run>>, row: seq<C.Run>)
    requires C.GridRow(row) && forall i :: 0 <= i < |rows| ==> C.GridRow(rows[i])
    ensures forall i :: 0 <= i < |rows| + 1 ==> C.GridRow((rows + [row])[i])
  {
    forall i | 0 <= i < |rows| + 1 ensures C.GridRow((rows + [row])[i]) {
      if i < |rows| { assert (rows + [row])[i] == rows[i]; }
    }
  }

  /** The reply to a history request over any rows the screen ever rendered: a prefix of the
      lines asked for, non-empty if there were any, within the page budget, and as long as
      the budget allows. */
  method ReplyWithRows(ack: nat, first: nat, lines: seq<Runs>) returns (frame: C.Bytes, n: nat)
    requires forall i :: 0 <= i < |lines| ==> FromGrid(lines[i])
    ensures n <= |lines| && (lines != [] ==> n >= 1)
    ensures frame == C.EncodeScroll(C.Scroll(ack, first, EncodedLines(lines)[..n])) && |frame| <= C.PAGE_BYTE_BUDGET
    ensures n == |lines| || C.SCROLL_HEADER_SIZE + C.LinesSize(EncodedLines(lines)[..n + 1]) > C.PAGE_BYTE_BUDGET
  {
    var rows := EncodeRows(lines);
    AllGridRows(lines);
    frame, n := C.HistoryReply(ack, first, rows);
  }
}
