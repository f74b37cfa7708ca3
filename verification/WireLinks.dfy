/** Detected links stamped onto a row's runs, and the chain of wrapped rows they are
    detected in. */
module WireLinks {
  import opened Prelude
  import opened WireTypes
  import opened Wire

  const MAX_AUTOLINK_ROWS := 4

  /** Past any row: the start of the next span when there is none. */
  const NO_SPAN := 0x4000_0000

  // --- stamping links ----------------------------------------------------------------------------

  datatype Span = Span(url: seq<int>, start: int, end: int)

  predicate Covers(sp: Span, col: int) { sp.start <= col < sp.end }

  /** Sorted and disjoint, as matches are found. */
  predicate Sorted(spans: seq<Span>) {
    forall i, j :: 0 <= i < j < |spans| ==> spans[i].end <= spans[j].start
  }

  /** The first span covering a column. */
  function Covering(spans: seq<Span>, col: int): Option<Span> {
    if spans == [] then None else if Covers(spans[0], col) then Some(spans[0]) else Covering(spans[1..], col)
  }

  lemma {:induction false} CoveringIsFirst(spans: seq<Span>, col: int)
    ensures var r := Covering(spans, col);
      if r.Some? then r.value in spans && Covers(r.value, col) else forall i :: 0 <= i < |spans| ==> !Covers(spans[i], col)
    decreases |spans|
  {
    if spans != [] && !Covers(spans[0], col) {
      CoveringIsFirst(spans[1..], col);
      assert forall i :: 1 <= i < |spans| ==> spans[i] == spans[1..][i - 1];
    }
  }

  method SpanCovering(spans: seq<Span>, col: int) returns (r: Option<Span>)
    ensures r == Covering(spans, col)
  {
    for i := 0 to |spans|
      invariant Covering(spans, col) == Covering(spans[i..], col)
    {
      assert spans[i..][1..] == spans[i + 1..];
      if Covers(spans[i], col) { return Some(spans[i]); }
    }
    return None;
  }

  method NextSpanStart(spans: seq<Span>, col: int) returns (next: int)
    requires col < NO_SPAN
    ensures col < next <= NO_SPAN
    ensures forall i :: 0 <= i < |spans| && col < spans[i].start ==> next <= spans[i].start
  {
    next := NO_SPAN;
    for i := 0 to |spans|
      invariant col < next <= NO_SPAN
      invariant forall j :: 0 <= j < i && col < spans[j].start ==> next <= spans[j].start
    {
      if spans[i].start > col && spans[i].start < next { next := spans[i].start; }
    }
  }

  function SetAutolink(attrs: nat): nat { if attrs / AUTOLINK % 2 == 1 then attrs else attrs + AUTOLINK }

  /** What stamping makes of one column: untouched if the application linked it, else the
      covering span's link and the bit, else no link. */
  function Stamped(col: WireRun, sp: Option<Span>): WireRun {
    if col.url != [] || sp.None? then col
    else col.(url := sp.value.url, attrs := SetAutolink(col.attrs))
  }

  /** Every column of a stretch stamped, the first of them at absolute column `from`. */
  function StampAll(cols: Runs, from: int, spans: seq<Span>): Runs {
    if cols == [] then []
    else
      var n := |cols| - 1;
      StampAll(cols[..n], from, spans) + [Stamped(cols[n], Covering(spans, from + n))]
  }

  lemma {:induction false} StampNothing(cols: Runs, from: int)
    ensures StampAll(cols, from, []) == cols
  {
    if cols != [] { StampNothing(cols[..|cols| - 1], from); }
  }

  lemma {:induction false} StampAppend(a: Runs, b: Runs, from: int, spans: seq<Span>)
    ensures StampAll(a + b, from, spans) == StampAll(a, from, spans) + StampAll(b, from + |a|, spans)
    decreases |b|
  {
    if b == [] {
      assert a + b == a;
    } else {
      var n := |b| - 1;
      assert (a + b)[..|a| + n] == a + b[..n];
      StampAppend(a, b[..n], from, spans);
    }
  }

  /** What the stamped row says of one column. */
  lemma {:induction false} StampedAt(cols: Runs, from: int, spans: seq<Span>, i: nat)
    requires i < |cols|
    ensures |StampAll(cols, from, spans)| == |cols|
    ensures StampAll(cols, from, spans)[i] == Stamped(cols[i], Covering(spans, from + i))
    decreases |cols|
  {
    var n := |cols| - 1;
    if n > 0 { StampedAt(cols[..n], from, spans, if i < n then i else 0); }
  }

  /** Where two spans do not overlap, the span covering one column covers every column up
      to its end, and no other does. */
  lemma SameCovering(spans: seq<Span>, sp: Span, col: int)
    requires Sorted(spans) && sp in spans && Covers(sp, col)
    ensures Covering(spans, col) == Some(sp)
  {
    var j :| 0 <= j < |spans| && spans[j] == sp;
    if j > 0 {
      assert spans[0].end <= spans[j].start;
      assert spans[1..][j - 1] == sp;
      SameCovering(spans[1..], sp, col);
    }
  }

  function Linked(run: WireRun, sp: Option<Span>): WireRun {
    if sp.None? then run.(url := []) else run.(url := sp.value.url, attrs := SetAutolink(run.attrs))
  }

  /** A piece of a run: its text cut, its link and its extra bit set. */
  function RunSlice(run: WireRun, lo: int, hi: int, sp: Option<Span>): WireRun
    requires 0 <= lo <= hi <= |run.text|
  {
    Linked(run, sp).(text := run.text[lo..hi])
  }

  /** Text all of whose columns have the same covering span is stamped all alike. */
  lemma {:induction false} LinkedStamps(run: WireRun, text: seq<int>, sp: Option<Span>, col: int, spans: seq<Span>)
    requires run.url == []
    requires forall c :: col <= c < col + |text| ==> Covering(spans, c) == sp
    ensures Columns(Linked(run, sp), text) == StampAll(Columns(run, text), col, spans)
    decreases |text|
  {
    if text != [] {
      var n := |text| - 1;
      LinkedStamps(run, text[..n], sp, col, spans);
      assert Columns(run, text)[..n] == Columns(run, text[..n]);
      assert Covering(spans, col + n) == sp;
    }
  }

  /** How far from a column on the covering span stays the same, within `limit`. */
  method Segment(spans: seq<Span>, at: int, limit: int) returns (sp: Option<Span>, end: int)
    requires Sorted(spans) && at < limit <= NO_SPAN
    ensures at < end <= limit
    ensures forall c :: at <= c < end ==> Covering(spans, c) == sp
  {
    sp := SpanCovering(spans, at);
    CoveringIsFirst(spans, at);
    if sp.None? {
      var next := NextSpanStart(spans, at);
      end := if next < limit then next else limit;
      forall c | at <= c < end ensures Covering(spans, c) == sp {
        NoneUntilNext(spans, at, next, c);
      }
    } else {
      end := Min(sp.value.end, limit);
      forall c | at <= c < end ensures Covering(spans, c) == sp {
        SameCovering(spans, sp.value, c);
      }
    }
  }

  /** Stamped columns followed by more of them. */
  lemma StampMore(out: Runs, more: Runs, done: Runs, cols: Runs, col: int, spans: seq<Span>)
    requires out == StampAll(done, col, spans) && more == StampAll(cols, col + |done|, spans)
    ensures out + more == StampAll(done + cols, col, spans)
  {
    StampAppend(done, cols, col, spans);
  }

  /** A piece expands to its columns stamped. */
  lemma PieceExpands(pieces: Runs, run: WireRun, text: seq<int>, sp: Option<Span>, col: int, spans: seq<Span>)
    requires run.url == [] && forall c :: col <= c < col + |text| ==> Covering(spans, c) == sp
    ensures Expand(pieces + [Linked(run, sp).(text := text)]) == Expand(pieces) + StampAll(Columns(run, text), col, spans)
  {
    ExpandSnoc(pieces, Linked(run, sp).(text := text));
    ColumnsIgnoreText(Linked(run, sp), text, text);
    LinkedStamps(run, text, sp, col, spans);
  }

  /** The columns done once one more piece of a run is cut off. */
  lemma OnePiece(pieces: Runs, run: WireRun, at: int, end: int, sp: Option<Span>, done: Runs, col: int, spans: seq<Span>)
    returns (more: Runs)
    requires run.url == [] && 0 <= at <= end <= |run.text|
    requires forall c :: col + at <= c < col + end ==> Covering(spans, c) == sp
    requires |done| == at && done == Columns(run, run.text[..at]) && Expand(pieces) == StampAll(done, col, spans)
    ensures |more| == end && more == Columns(run, run.text[..end])
    ensures Expand(pieces + [RunSlice(run, at, end, sp)]) == StampAll(more, col, spans)
  {
    var text := run.text[at..end];
    var cols := Columns(run, text);
    more := done + cols;
    ColumnsAppend(run, run.text[..at], text);
    assert run.text[..at] + text == run.text[..end];
    PieceExpands(pieces, run, text, sp, col + at, spans);
    assert RunSlice(run, at, end, sp) == Linked(run, sp).(text := text);
    StampMore(Expand(pieces), StampAll(cols, col + at, spans), done, cols, col, spans);
    SameRuns(Expand(pieces + [RunSlice(run, at, end, sp)]), Expand(pieces) + StampAll(cols, col + at, spans), StampAll(more, col, spans));
  }

  lemma SameRuns(a: Runs, b: Runs, c: Runs)
    requires a == b && b == c
    ensures a == c
  {}

  /** One run, cut at span boundaries; `col` is its first column. */
  method StampRun(run: WireRun, col: nat, spans: seq<Span>) returns (pieces: Runs)
    requires run.url == [] && Sorted(spans) && col + |run.text| <= NO_SPAN
    ensures Expand(pieces) == StampAll(Columns(run, run.text), col, spans)
    ensures Solid(pieces)
  {
    pieces := [];
    var at := 0;
    ghost var done: Runs := [];
    while at < |run.text|
      invariant 0 <= at <= |run.text| && |done| == at
      invariant done == Columns(run, run.text[..at])
      invariant Expand(pieces) == StampAll(done, col, spans)
      invariant Solid(pieces)
    {
      var sp, end := Segment(spans, col + at, col + |run.text|);
      done := OnePiece(pieces, run, at, end - col, sp, done, col, spans);
      pieces := pieces + [RunSlice(run, at, end - col, sp)];
      at := end - col;
    }
    assert run.text[..at] == run.text;
  }

  lemma {:induction false} NoneUntilNext(spans: seq<Span>, col: int, next: int, c: int)
    requires forall i :: 0 <= i < |spans| ==> !Covers(spans[i], col)
    requires forall i :: 0 <= i < |spans| && col < spans[i].start ==> next <= spans[i].start
    requires col <= c < next
    ensures Covering(spans, c) == None
  {
    if spans != [] {
      assert !Covers(spans[0], col);
      assert forall i :: 0 <= i < |spans[1..]| ==> spans[1..][i] == spans[i + 1];
      NoneUntilNext(spans[1..], col, next, c);
    }
  }

  lemma PrefixFits(runs: Runs, i: nat)
    requires i < |runs|
    ensures |Expand(runs[..i])| + |runs[i].text| <= |Expand(runs)|
    ensures Expand(runs[..i + 1]) == Expand(runs[..i]) + Columns(runs[i], runs[i].text)
  {
    assert runs[..i + 1] == runs[..i] + [runs[i]];
    ExpandSnoc(runs[..i], runs[i]);
    assert runs == runs[..i + 1] + runs[i + 1..];
    ExpandAppend(runs[..i + 1], runs[i + 1..]);
  }

  /** A run the application linked is its own stamp. */
  lemma {:induction false} LinkedColumnsStand(run: WireRun, text: seq<int>, col: int, spans: seq<Span>)
    requires run.url != []
    ensures StampAll(Columns(run, text), col, spans) == Columns(run, text)
    decreases |text|
  {
    if text != [] {
      var n := |text| - 1;
      LinkedColumnsStand(run, text[..n], col, spans);
      assert Columns(run, text)[..n] == Columns(run, text[..n]);
    }
  }

  lemma LinkedRunStands(run: WireRun, col: int, spans: seq<Span>)
    requires run.url != []
    ensures Expand([run]) == StampAll(Columns(run, run.text), col, spans)
  {
    LinkedColumnsStand(run, run.text, col, spans);
    ExpandSnoc([], run);
    assert [] + [run] == [run];
  }

  /** One run of a row stamped: as it is if the application linked it, else cut up. */
  method StampOne(run: WireRun, col: nat, spans: seq<Span>) returns (pieces: Runs)
    requires Sorted(spans) && col + |run.text| <= NO_SPAN
    ensures Expand(pieces) == StampAll(Columns(run, run.text), col, spans)
    ensures run.text != [] ==> Solid(pieces)
  {
    if run.url != [] {
      LinkedRunStands(run, col, spans);
      pieces := [run];
    } else {
      pieces := StampRun(run, col, spans);
    }
  }

  /** One more run stamped and appended. */
  method StampNext(out: Runs, runs: Runs, i: nat, col: nat, spans: seq<Span>) returns (more: Runs)
    requires i < |runs| && Sorted(spans) && |Expand(runs)| <= NO_SPAN && col == |Expand(runs[..i])|
    requires Expand(out) == StampAll(Expand(runs[..i]), 0, spans) && (Solid(runs) ==> Solid(out))
    ensures Expand(more) == StampAll(Expand(runs[..i + 1]), 0, spans) && (Solid(runs) ==> Solid(more))
  {
    PrefixFits(runs, i);
    var pieces := StampOne(runs[i], col, spans);
    more := out + pieces;
    ExpandAppend(out, pieces);
    ghost var cols := Columns(runs[i], runs[i].text);
    StampMore(Expand(out), Expand(pieces), Expand(runs[..i]), cols, 0, spans);
    SameRuns(Expand(more), Expand(out) + Expand(pieces), StampAll(Expand(runs[..i]) + cols, 0, spans));
  }

  /** Text and colours of every column are kept; the link and the bit change on exactly
      the covered columns that carry no application link. */
  method ApplyLinkSpans(runs: Runs, spans: seq<Span>) returns (out: Runs)
    requires Sorted(spans) && |Expand(runs)| <= NO_SPAN
    ensures Expand(out) == StampAll(Expand(runs), 0, spans)
    ensures Solid(runs) ==> Solid(out)
  {
    out := [];
    var col := 0;
    for i := 0 to |runs|
      invariant col == |Expand(runs[..i])|
      invariant Expand(out) == StampAll(Expand(runs[..i]), 0, spans)
      invariant Solid(runs) ==> Solid(out)
    {
      PrefixFits(runs, i);
      out := StampNext(out, runs, i, col, spans);
      col := col + |runs[i].text|;
    }
    assert runs[..|runs|] == runs;
  }

  // --- the chain of wrapped rows -------------------------------------------------------------

  /** A row's part of a joined chain: its text, and the column that text starts at. */
  datatype ChainRow = ChainRow(text: seq<int>, indent: nat)

  /** How many rows before the focus a bounded chain keeps: two, unless fewer follow it. */
  function KeptBefore(n: nat, focus: nat): nat
    requires focus < n
  {
    if n <= MAX_AUTOLINK_ROWS then focus
    else Min(focus, Max(MAX_AUTOLINK_ROWS / 2, MAX_AUTOLINK_ROWS - (n - focus)))
  }

  /** The rows nearest the focus, older ones first to be kept on a tie. */
  method BoundChain(chain: seq<ChainRow>, at: nat) returns (rows: seq<ChainRow>, focus: nat)
    requires at < |chain|
    ensures focus == KeptBefore(|chain|, at) && |rows| == Min(|chain|, MAX_AUTOLINK_ROWS)
    ensures rows == chain[at - focus..][..|rows|]
    ensures focus < |rows| && rows[focus] == chain[at]
  {
    rows, focus := chain, at;
    while |rows| > MAX_AUTOLINK_ROWS
      invariant focus < |rows| && focus <= at && |rows| >= Min(|chain|, MAX_AUTOLINK_ROWS)
      invariant at - focus + |rows| <= |chain|
      invariant rows == chain[at - focus..at - focus + |rows|]
      invariant KeptBefore(|rows|, focus) == KeptBefore(|chain|, at)
    {
      if focus > |rows| - 1 - focus {
        rows, focus := rows[1..], focus - 1;
      } else {
        rows := rows[..|rows| - 1];
      }
    }
  }

  // --- matches over a chain --------------------------------------------------------------------

  /** The offset of a row's text in the joined text. */
  function RowStart(rows: seq<ChainRow>, i: nat): nat
    requires i <= |rows|
  {
    if i == 0 then 0 else RowStart(rows, i - 1) + |rows[i - 1].text|
  }

  datatype Match = Match(start: nat, end: nat, url: seq<int>)

  /** The part of a match that lies in a row, as a span of that row's columns. */
  function SpanIn(rows: seq<ChainRow>, i: nat, m: Match): Option<Span>
    requires i < |rows|
  {
    var rowStart, rowEnd := RowStart(rows, i), RowStart(rows, i + 1);
    if m.end <= rowStart || m.start >= rowEnd then None
    else Some(Span(m.url, Max(m.start, rowStart) - rowStart + rows[i].indent, Min(m.end, rowEnd) - rowStart + rows[i].indent))
  }

  method AutolinkSpans(rows: seq<ChainRow>, focus: nat, matches: seq<Match>) returns (spans: seq<Span>)
    requires focus < |rows|
    ensures spans == SpansOf(rows, focus, matches)
  {
    spans := [];
    var rowStart := 0;
    for i := 0 to focus
      invariant rowStart == RowStart(rows, i)
    {
      rowStart := rowStart + |rows[i].text|;
    }
    var rowEnd := rowStart + |rows[focus].text|;
    var indent := rows[focus].indent;
    for k := 0 to |matches|
      invariant spans == SpansOf(rows, focus, matches[..k])
    {
      assert matches[..k + 1][..k] == matches[..k];
      var m := matches[k];
      if m.end <= rowStart || m.start >= rowEnd { continue; }
      spans := spans + [Span(m.url, Max(m.start, rowStart) - rowStart + indent, Min(m.end, rowEnd) - rowStart + indent)];
    }
    assert matches[..|matches|] == matches;
  }

  function SpansOf(rows: seq<ChainRow>, focus: nat, matches: seq<Match>): seq<Span>
    requires focus < |rows|
  {
    if matches == [] then []
    else
      var sp := SpanIn(rows, focus, matches[|matches| - 1]);
      SpansOf(rows, focus, matches[..|matches| - 1]) + if sp.Some? then [sp.value] else []
  }

  lemma RowStartsGrow(rows: seq<ChainRow>, i: nat, j: nat)
    requires i <= j <= |rows|
    ensures RowStart(rows, i) <= RowStart(rows, j)
    decreases j
  {
    if i < j { RowStartsGrow(rows, i, j - 1); }
  }

  /** The row an offset of the joined text lies in. */
  function RowOf(rows: seq<ChainRow>, offset: nat): (i: nat)
    requires offset < RowStart(rows, |rows|)
    ensures i < |rows| && RowStart(rows, i) <= offset < RowStart(rows, i + 1)
  {
    RowBelow(rows, offset, |rows|)
  }

  function RowBelow(rows: seq<ChainRow>, offset: nat, n: nat): (i: nat)
    requires n <= |rows| && offset < RowStart(rows, n)
    ensures i < n && RowStart(rows, i) <= offset < RowStart(rows, i + 1)
  {
    if RowStart(rows, n - 1) <= offset then n - 1 else RowBelow(rows, offset, n - 1)
  }

  /** The columns one match's spans cover, row by row, are exactly the match: every offset
      of it is covered in the one row that holds it, and nothing else is. */
  lemma SpansTileTheMatch(rows: seq<ChainRow>, m: Match, i: nat, col: int)
    requires i < |rows|
    ensures
      var sp := SpanIn(rows, i, m);
      var offset := RowStart(rows, i) + col - rows[i].indent;
      (sp.Some? && Covers(sp.value, col)) <==>
      (rows[i].indent <= col < rows[i].indent + |rows[i].text| && m.start <= offset < m.end)
  {}

  lemma RowsDoNotOverlap(rows: seq<ChainRow>, i: nat, j: nat, offset: nat)
    requires i < |rows| && RowStart(rows, i) <= offset < RowStart(rows, i + 1)
    requires j < |rows| && RowStart(rows, j) <= offset < RowStart(rows, j + 1)
    ensures i == j
  {
    if i < j {
      RowStartsGrow(rows, i + 1, j);
    } else if j < i {
      RowStartsGrow(rows, j + 1, i);
    }
  }

  /** Every offset of a match lies in one row and no other, whose span of it covers the
      offset. */
  lemma EveryOffsetHasItsRow(rows: seq<ChainRow>, m: Match, offset: nat)
    requires m.start <= offset < m.end && offset < RowStart(rows, |rows|)
    ensures
      var i := RowOf(rows, offset);
      var sp := SpanIn(rows, i, m);
      && sp.Some? && sp.value.url == m.url && Covers(sp.value, offset - RowStart(rows, i) + rows[i].indent)
      && forall j: nat :: j < |rows| && RowStart(rows, j) <= offset < RowStart(rows, j + 1) ==> j == i
  {
    var i := RowOf(rows, offset);
    SpansTileTheMatch(rows, m, i, offset - RowStart(rows, i) + rows[i].indent);
    forall j: nat | j < |rows| && RowStart(rows, j) <= offset < RowStart(rows, j + 1) ensures j == i {
      RowsDoNotOverlap(rows, i, j, offset);
    }
  }

  predicate SortedMatches(matches: seq<Match>) {
    && (forall i :: 0 <= i < |matches| ==> matches[i].start < matches[i].end)
    && (forall i, j :: 0 <= i < j < |matches| ==> matches[i].end <= matches[j].start)
  }

  /** Matches in order give spans in order, which is all that stamping asks of them. */
  lemma {:induction false} SortedMatchesSortedSpans(rows: seq<ChainRow>, focus: nat, matches: seq<Match>)
    requires focus < |rows| && SortedMatches(matches)
    ensures Sorted(SpansOf(rows, focus, matches))
    ensures forall sp :: sp in SpansOf(rows, focus, matches) ==>
              matches != [] && sp.end <= Max(matches[|matches| - 1].end - RowStart(rows, focus), 0) + rows[focus].indent
    decreases |matches|
  {
    if matches != [] {
      var init := matches[..|matches| - 1];
      SortedMatchesSortedSpans(rows, focus, init);
      assert init != [] ==> init[|init| - 1].end <= matches[|matches| - 1].start;
    }
  }
}
