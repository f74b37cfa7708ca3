/** Which rows of the screen are one logical line for link detection: rows the terminal
    wrapped, rows an application wrapped itself, and rows already scrolled off. */
module WireChains {
  import opened Prelude
  import opened VtCells
  import opened Wire
  import opened WireLinks

  /** The screen's rows and wrap flags, and the text of the rows kept from above it. */
  datatype Page = Page(rows: Grid, wrapped: seq<bool>, tail: seq<seq<int>>)

  // --- an application's own wrapping ---------------------------------------------------------

  predicate IsBlank(c: Cell) { c.ch == 0 || c.ch == SPACE }

  function Leading(row: Row): (n: nat)
    ensures n <= |row| && (forall x: nat :: x < n ==> IsBlank(row[x])) && (n < |row| ==> !IsBlank(row[n]))
  {
    if row == [] || !IsBlank(row[0]) then 0
    else
      var n := Leading(row[1..]);
      assert forall x: nat :: 1 <= x < n + 1 ==> row[x] == row[1..][x - 1];
      n + 1
  }

  /** `cur` goes on from a full row `prev`, behind the same margin of blanks, not an empty one. */
  predicate Indented(prev: Row, cur: Row, indent: nat) {
    && |prev| == |cur| && 0 < indent < |cur|
    && !IsBlank(prev[|prev| - 1])
    && (forall x: nat :: x < indent ==> IsBlank(prev[x]) && IsBlank(cur[x]))
    && !IsBlank(prev[indent]) && !IsBlank(cur[indent])
  }

  method LeadingBlankCells(row: Row) returns (n: nat)
    ensures n == Leading(row)
  {
    n := 0;
    while n < |row| && IsBlank(row[n])
      invariant n <= |row| && forall x: nat :: x < n ==> IsBlank(row[x])
    {
      n := n + 1;
    }
  }

  /** The margin, or -1 when there is none; it is unique. */
  method HardWrapIndent(prev: Row, cur: Row) returns (r: int)
    ensures r >= 0 ==> Indented(prev, cur, r)
    ensures r < 0 ==> r == -1 && forall n: nat :: !Indented(prev, cur, n)
  {
    if |prev| == 0 || |prev| != |cur| || IsBlank(prev[|prev| - 1]) { return -1; }
    var indent := LeadingBlankCells(prev);
    var other := LeadingBlankCells(cur);
    if indent == 0 || indent >= |cur| || indent != other {
      forall n: nat ensures !Indented(prev, cur, n) {
        if Indented(prev, cur, n) {
          LeadingIs(prev, n);
          LeadingIs(cur, n);
        }
      }
      return -1;
    }
    r := indent;
  }

  lemma LeadingIs(row: Row, n: nat)
    requires n < |row| && (forall x: nat :: x < n ==> IsBlank(row[x])) && !IsBlank(row[n])
    ensures Leading(row) == n
  {}

  // --- chains ----------------------------------------------------------------------------------

  predicate HardWraps(p: Page, y: nat)
    requires 0 < y < |p.rows|
  {
    Indented(p.rows[y - 1], p.rows[y], Leading(p.rows[y]))
  }

  /** Row `y` goes on from the row above it. */
  predicate Continues(p: Page, y: int) {
    0 < y < |p.rows| && y < |p.wrapped| && (p.wrapped[y] || HardWraps(p, y))
  }

  method ContinuesRow(p: Page, y: int) returns (r: bool)
    ensures r == Continues(p, y)
  {
    if y <= 0 || y >= |p.rows| || y >= |p.wrapped| { return false; }
    if p.wrapped[y] { return true; }
    var indent := HardWrapIndent(p.rows[y - 1], p.rows[y]);
    r := indent >= 0;
    if r { LeadingIs(p.rows[y], indent); }
  }

  /** The row a chain opens with, and the row it ends with. */
  function First(p: Page, y: nat): (s: nat)
    ensures s <= y && !Continues(p, s) && forall k :: s < k <= y ==> Continues(p, k)
  {
    if Continues(p, y) then First(p, y - 1) else y
  }

  function Final(p: Page, y: nat): (e: nat)
    ensures y <= e && !Continues(p, e + 1) && forall k :: y < k <= e ==> Continues(p, k)
    ensures y < |p.rows| ==> e < |p.rows|
    decreases |p.rows| - y
  {
    if Continues(p, y + 1) then Final(p, y + 1) else y
  }

  /** What row `r` adds to the chain opened at row `first`. */
  function PartOf(p: Page, r: nat, first: nat): ChainRow
    requires r < |p.rows|
  {
    var text := Glyphs(p.rows[r]);
    if r > first && !(r < |p.wrapped| && p.wrapped[r]) then
      ChainRow(text[Leading(p.rows[r])..], Leading(p.rows[r]))
    else ChainRow(text, 0)
  }

  function Kept(p: Page, first: nat): seq<seq<int>> {
    if first == 0 && p.wrapped != [] && p.wrapped[0] then p.tail else []
  }

  function Whole(p: Page, first: nat, end: nat): (rows: seq<ChainRow>)
    requires first <= end < |p.rows|
    ensures |rows| == |Kept(p, first)| + (end - first + 1)
  {
    var kept := Kept(p, first);
    seq(|kept|, i requires 0 <= i < |kept| => ChainRow(kept[i], 0))
    + seq(end - first + 1, i requires 0 <= i <= end - first => PartOf(p, first + i, first))
  }

  /** The chain row `y` is in, and the row's place in it. */
  function Chain(p: Page, y: nat): seq<ChainRow>
    requires y < |p.rows|
  {
    Whole(p, First(p, y), Final(p, y))
  }

  function PlaceIn(p: Page, y: nat): nat { |Kept(p, First(p, y))| + (y - First(p, y)) }

  /** The rows of the chain that row `y` is scanned with, and its place among them. */
  function Window(p: Page, y: nat): seq<ChainRow>
    requires y < |p.rows|
  {
    Chain(p, y)[PlaceIn(p, y) - PlaceInWindow(p, y)..][..Min(|Chain(p, y)|, MAX_AUTOLINK_ROWS)]
  }

  function PlaceInWindow(p: Page, y: nat): (i: nat)
    requires y < |p.rows|
    ensures i <= PlaceIn(p, y) < |Chain(p, y)|
  {
    KeptBefore(|Chain(p, y)|, PlaceIn(p, y))
  }

  method ChainRows(p: Page, y: nat) returns (rows: seq<ChainRow>, focus: nat)
    requires y < |p.rows|
    ensures rows == Window(p, y) && focus == PlaceInWindow(p, y)
    ensures focus < |rows| && rows[focus] == PartOf(p, y, First(p, y))
  {
    var first := ChainStart(p, y);
    var end := ChainEnd(p, y);
    var whole := Gather(p, first, end);
    rows, focus := BoundChain(whole, |Kept(p, first)| + (y - first));
  }

  /** Links found in the chain's text stamped on a row's runs. */
  method StampAutolinks(p: Page, y: nat, runs: Runs, matches: seq<Match>) returns (out: Runs)
    requires y < |p.rows| && SortedMatches(matches) && |Expand(runs)| <= NO_SPAN
    ensures PlaceInWindow(p, y) < |Window(p, y)|
    ensures Expand(out) == StampAll(Expand(runs), 0, LinksOn(p, y, matches))
    ensures Solid(runs) ==> Solid(out)
  {
    var rows, focus := ChainRows(p, y);
    var spans := AutolinkSpans(rows, focus, matches);
    if |spans| == 0 {
      StampNothing(Expand(runs), 0);
      return runs;
    }
    SortedMatchesSortedSpans(rows, focus, matches);
    out := ApplyLinkSpans(runs, spans);
  }

  /** The links on row `y`, given the matches found in the text it is scanned with. */
  function LinksOn(p: Page, y: nat, matches: seq<Match>): seq<Span>
    requires y < |p.rows| && PlaceInWindow(p, y) < |Window(p, y)|
  {
    SpansOf(Window(p, y), PlaceInWindow(p, y), matches)
  }

  method ChainStart(p: Page, y: nat) returns (first: nat)
    requires y < |p.rows|
    ensures first == First(p, y)
  {
    first := y;
    var goes := ContinuesRow(p, first);
    while first > 0 && goes
      invariant first <= y && goes == Continues(p, first) && First(p, first) == First(p, y)
    {
      first := first - 1;
      goes := ContinuesRow(p, first);
    }
  }

  method ChainEnd(p: Page, y: nat) returns (end: nat)
    requires y < |p.rows|
    ensures end == Final(p, y)
  {
    end := y;
    var goes := ContinuesRow(p, end + 1);
    while end + 1 < |p.rows| && goes
      invariant y <= end < |p.rows| && goes == Continues(p, end + 1) && Final(p, end) == Final(p, y)
      decreases |p.rows| - end
    {
      end := end + 1;
      goes := ContinuesRow(p, end + 1);
    }
  }

  method Gather(p: Page, first: nat, end: nat) returns (rows: seq<ChainRow>)
    requires first <= end < |p.rows|
    ensures rows == Whole(p, first, end)
  {
    rows := [];
    var kept := Kept(p, first);
    for i := 0 to |kept|
      invariant rows == Whole(p, first, end)[..i]
    {
      rows := rows + [ChainRow(kept[i], 0)];
    }
    for r := first to end + 1
      invariant rows == Whole(p, first, end)[..|kept| + (r - first)]
    {
      rows := rows + [PartOf(p, r, first)];
    }
  }

  // --- every row of a chain sees the same chain --------------------------------------------------

  /** Chains divide the screen: a row of a chain has that chain. */
  lemma {:induction false} OneChain(p: Page, y: nat, z: nat)
    requires First(p, y) <= z <= Final(p, y) && y < |p.rows|
    ensures First(p, z) == First(p, y) && Final(p, z) == Final(p, y)
    decreases if z <= y then y - z else z - y
  {
    if z < y {
      OneChain(p, y - 1, z);
      assert Continues(p, y);
    } else if z > y {
      assert Continues(p, y + 1);
      OneChain(p, y + 1, z);
    }
  }

  /** Two rows of one chain join the same text, each at its own place in it. */
  lemma SameChain(p: Page, y: nat, z: nat)
    requires First(p, y) <= z <= Final(p, y) && y < |p.rows|
    ensures Chain(p, z) == Chain(p, y) && PlaceIn(p, z) - PlaceIn(p, y) == z - y
  {
    OneChain(p, y, z);
  }

  /** Where a row's window begins in the chain's text, and where a cell of the row lies. */
  function WindowStart(p: Page, y: nat): nat
    requires y < |p.rows|
  {
    RowStart(Chain(p, y), PlaceIn(p, y) - PlaceInWindow(p, y))
  }

  function CellOffset(p: Page, y: nat, col: int): int
    requires y < |p.rows|
  {
    RowStart(Chain(p, y), PlaceIn(p, y)) + col - Chain(p, y)[PlaceIn(p, y)].indent
  }

  predicate HasText(p: Page, y: nat, col: int)
    requires y < |p.rows|
  {
    var row := PartOf(p, y, First(p, y));
    row.indent <= col < row.indent + |row.text|
  }

  /** The match, found in the window's text, is linked on this cell. */
  predicate Linked(p: Page, y: nat, m: Match, col: int)
    requires y < |p.rows|
  {
    PlaceInWindow(p, y) < |Window(p, y)| &&
    var sp := SpanIn(Window(p, y), PlaceInWindow(p, y), m);
    sp.Some? && Covers(sp.value, col)
  }

  lemma {:induction false} StartsShift(rows: seq<ChainRow>, from: nat, n: nat, k: nat)
    requires from + n <= |rows| && k <= n
    ensures RowStart(rows[from..][..n], k) == RowStart(rows, from + k) - RowStart(rows, from)
    decreases k
  {
    if k > 0 {
      StartsShift(rows, from, n, k - 1);
      assert rows[from..][..n][k - 1] == rows[from + (k - 1)];
    }
  }

  /** A match covers exactly the cells of a row whose place in the chain's text lies in it,
      reckoned from where the row's window begins. */
  lemma MatchCoversItsWindow(p: Page, y: nat, m: Match, col: int)
    requires y < |p.rows|
    ensures Linked(p, y, m, col) <==>
            (HasText(p, y, col) && m.start <= CellOffset(p, y, col) - WindowStart(p, y) < m.end)
  {
    var chain, at, f := Chain(p, y), PlaceIn(p, y), PlaceInWindow(p, y);
    var n := Min(|chain|, MAX_AUTOLINK_ROWS);
    StartsShift(chain, at - f, n, f);
    assert Window(p, y)[f] == chain[at - f + f] == PartOf(p, y, First(p, y));
    SpansTileTheMatch(Window(p, y), m, f, col);
  }

  /** A cell of a row covered by a match, placed in the chain's text as another row's window
      reckons it. */
  predicate CoversFrom(p: Page, y: nat, z: nat, m: Match, col: int)
    requires y < |p.rows| && z < |p.rows|
  {
    HasText(p, z, col) && WindowStart(p, y) + m.start <= CellOffset(p, z, col) < WindowStart(p, y) + m.end
  }

  /** A match read from one row's window, and again from another's that reaches back to where
      it starts. */
  lemma MatchMoves(p: Page, y: nat, z: nat, m: Match, col: int)
    requires y < |p.rows| && z < |p.rows| && m.start <= m.end && WindowStart(p, z) <= WindowStart(p, y) + m.start
    ensures
      var shift := WindowStart(p, y) - WindowStart(p, z);
      Linked(p, z, Match(m.start + shift, m.end + shift, m.url), col) <==> CoversFrom(p, y, z, m, col)
  {
    var shift := WindowStart(p, y) - WindowStart(p, z);
    var moved := Match(m.start + shift, m.end + shift, m.url);
    MatchCoversItsWindow(p, z, moved, col);
    Reckoned(Linked(p, z, moved, col), HasText(p, z, col), CellOffset(p, z, col), WindowStart(p, y), WindowStart(p, z), m.start, m.end);
  }

  /** A place reckoned from one window's start, and from the chain's. */
  lemma Reckoned(linked: bool, text: bool, at: int, from: int, to_: int, start: int, end: int)
    requires linked <==> text && start + (from - to_) <= at - to_ < end + (from - to_)
    ensures linked <==> text && from + start <= at < from + end
  {}

  /** One match over a chain of any length: read from row `y`'s window, and again from the
      window of any row `z` of the chain that reaches back to where it starts, it covers on
      `z` exactly the cells whose place in the chain's text lies in it. */
  lemma MatchCoversItsChain(p: Page, y: nat, z: nat, m: Match, col: int)
    requires y < |p.rows| && First(p, y) <= z <= Final(p, y)
    requires m.start <= m.end && WindowStart(p, z) <= WindowStart(p, y) + m.start
    ensures
      var shift := WindowStart(p, y) - WindowStart(p, z);
      Chain(p, z) == Chain(p, y) &&
      (Linked(p, z, Match(m.start + shift, m.end + shift, m.url), col) <==> CoversFrom(p, y, z, m, col))
  {
    SameChain(p, y, z);
    MatchMoves(p, y, z, m, col);
  }

  /** A chain of at most four rows is scanned whole from each of its rows. */
  lemma ShortChainsAreWhole(p: Page, y: nat)
    requires y < |p.rows| && |Chain(p, y)| <= MAX_AUTOLINK_ROWS
    ensures Window(p, y) == Chain(p, y) && PlaceInWindow(p, y) == PlaceIn(p, y) && WindowStart(p, y) == 0
  {}

  /** In a longer chain, the row a link opens on is scanned from the first three rows and
      from no other. */
  lemma OpeningRowIsSeenExactly(n: nat, place: nat)
    requires place < n && n > MAX_AUTOLINK_ROWS
    ensures KeptBefore(n, place) == place <==> place <= 2
  {}

  /** On a row the application wrapped itself the margin is layout and left out of the text;
      on one the terminal wrapped leading blanks are text. */
  lemma MarginIsLayout(p: Page, r: nat, first: nat)
    requires first < r < |p.rows| && Continues(p, r)
    ensures
      var part := PartOf(p, r, first);
      if p.wrapped[r] then part == ChainRow(Glyphs(p.rows[r]), 0)
      else
        && 0 < part.indent < |p.rows[r]| && part.text == Glyphs(p.rows[r])[part.indent..] && !IsBlank(p.rows[r][part.indent])
        && (forall x: nat :: x < part.indent ==> IsBlank(p.rows[r][x]) && IsBlank(p.rows[r - 1][x]))
  {}
}
