/** Cells and grids. Every operation that moves or clears cells is given here cell by
    cell, as the value each position ends up with. */
module VtCells {
  import opened Prelude
  import opened Sgr

  const SPACE: nat := 32

  /** `ch` 0 is the second half of a wide glyph. */
  datatype Cell = Cell(ch: nat, style: Style, link: seq<int>, decProtected: bool, isoProtected: bool)

  type Row = seq<Cell>
  type Grid = seq<Row>

  function BlankOn(bg: Color): Cell {
    Cell(SPACE, PLAIN.(bg := bg), [], false, false)
  }

  const BLANK := BlankOn(DEFAULT_COLOR)

  function BlankRow(w: nat, bg: Color): Row { seq(w, x => BlankOn(bg)) }

  predicate Sized(g: Grid, h: nat, w: nat) {
    |g| == h && forall y: nat :: y < h ==> |g[y]| == w
  }

  /** The cell at a position, blank outside the grid. */
  function At(g: Grid, y: int, x: int): Cell {
    if 0 <= y < |g| && 0 <= x < |g[y]| then g[y][x] else BLANK
  }

  /** Row `y`: `w` cells, each given by its column. */
  function TabulateRow(w: nat, y: nat, f: (int, int) -> Cell): (r: Row)
    ensures |r| == w
  {
    if w == 0 then [] else TabulateRow(w - 1, y, f) + [f(y, w - 1)]
  }

  /** A grid given cell by cell. Its definition is recursive, so that a proof that does not
      look inside a grid is not shown its cells; `CellsOf` shows them. */
  function Tabulate(h: nat, w: nat, f: (int, int) -> Cell): (g: Grid)
    ensures Sized(g, h, w)
  {
    if h == 0 then [] else Tabulate(h - 1, w, f) + [TabulateRow(w, h - 1, f)]
  }

  lemma {:induction false} CellsOfRow(w: nat, y: nat, f: (int, int) -> Cell, x: nat)
    requires x < w
    ensures TabulateRow(w, y, f)[x] == f(y, x)
  {
    if x < w - 1 { CellsOfRow(w - 1, y, f, x); }
  }

  lemma {:induction false} CellOf(h: nat, w: nat, f: (int, int) -> Cell, y: nat, x: nat)
    requires y < h && x < w
    ensures Tabulate(h, w, f)[y][x] == f(y, x)
  {
    if y < h - 1 { CellOf(h - 1, w, f, y, x); } else { CellsOfRow(w, y, f, x); }
  }

  lemma CellsOf(h: nat, w: nat, f: (int, int) -> Cell)
    ensures forall y: nat, x: nat :: y < h && x < w ==> Tabulate(h, w, f)[y][x] == f(y, x)
  {
    forall y: nat, x: nat | y < h && x < w ensures Tabulate(h, w, f)[y][x] == f(y, x) {
      CellOf(h, w, f, y, x);
    }
  }

  function BlankGrid(h: nat, w: nat): (g: Grid)
    ensures Sized(g, h, w)
  {
    Tabulate(h, w, (y, x) => BLANK)
  }

  lemma BlankCells(h: nat, w: nat)
    ensures forall y: nat, x: nat :: y < h && x < w ==> BlankGrid(h, w)[y][x] == BLANK
  {
    CellsOf(h, w, (y, x) => BLANK);
  }

  /** A rectangle, bounds included; empty when a low bound passes its high bound. */
  datatype Box = Box(top: int, left: int, bottom: int, right: int)

  predicate Inside(b: Box, y: int, x: int) { b.top <= y <= b.bottom && b.left <= x <= b.right }

  predicate Fits(b: Box, h: nat, w: nat) { 0 <= b.top <= b.bottom < h && 0 <= b.left <= b.right < w }

  /** The contents of a box moved up `n` rows (down, if negative), blanks moving in. */
  function MovedUp(g: Grid, b: Box, n: int, blank: Cell, y: int, x: int): Cell {
    if !Inside(b, y, x) then At(g, y, x)
    else if b.top <= y + n <= b.bottom then At(g, y + n, x)
    else blank
  }

  function MoveUp(g: Grid, h: nat, w: nat, b: Box, n: int, blank: Cell): (r: Grid)
    ensures Sized(r, h, w)
  {
    Tabulate(h, w, (y, x) => MovedUp(g, b, n, blank, y, x))
  }

  lemma MovedUpCells(g: Grid, h: nat, w: nat, b: Box, n: int, blank: Cell)
    ensures forall y: nat, x: nat :: y < h && x < w ==> MoveUp(g, h, w, b, n, blank)[y][x] == MovedUp(g, b, n, blank, y, x)
  {
    CellsOf(h, w, (y, x) => MovedUp(g, b, n, blank, y, x));
  }

  /** The contents of a box moved left `n` columns (right, if negative). */
  function MovedLeft(g: Grid, b: Box, n: int, blank: Cell, y: int, x: int): Cell {
    if !Inside(b, y, x) then At(g, y, x)
    else if b.left <= x + n <= b.right then At(g, y, x + n)
    else blank
  }

  function MoveLeft(g: Grid, h: nat, w: nat, b: Box, n: int, blank: Cell): (r: Grid)
    ensures Sized(r, h, w)
  {
    Tabulate(h, w, (y, x) => MovedLeft(g, b, n, blank, y, x))
  }

  lemma MovedLeftCells(g: Grid, h: nat, w: nat, b: Box, n: int, blank: Cell)
    ensures forall y: nat, x: nat :: y < h && x < w ==> MoveLeft(g, h, w, b, n, blank)[y][x] == MovedLeft(g, b, n, blank, y, x)
  {
    CellsOf(h, w, (y, x) => MovedLeft(g, b, n, blank, y, x));
  }

  /** Which protected cells an erase leaves alone. */
  datatype Spare = SpareNone | SpareIso | SpareDec | SpareBoth

  predicate Spares(m: Spare, c: Cell) {
    (c.isoProtected && (m == SpareIso || m == SpareBoth)) || (c.decProtected && (m == SpareDec || m == SpareBoth))
  }

  function Erased(g: Grid, b: Box, m: Spare, blank: Cell, y: int, x: int): Cell {
    if Inside(b, y, x) && !Spares(m, At(g, y, x)) then blank else At(g, y, x)
  }

  function Erase(g: Grid, h: nat, w: nat, b: Box, m: Spare, blank: Cell): (r: Grid)
    ensures Sized(r, h, w)
  {
    Tabulate(h, w, (y, x) => Erased(g, b, m, blank, y, x))
  }

  lemma ErasedCells(g: Grid, h: nat, w: nat, b: Box, m: Spare, blank: Cell)
    ensures forall y: nat, x: nat :: y < h && x < w ==> Erase(g, h, w, b, m, blank)[y][x] == Erased(g, b, m, blank, y, x)
  {
    CellsOf(h, w, (y, x) => Erased(g, b, m, blank, y, x));
  }

  /** A copy of box `b` with its corner at (`dy`, `dx`); what falls outside is lost. */
  function Copied(g: Grid, b: Box, dy: int, dx: int, y: int, x: int): Cell {
    if Inside(b, y - dy + b.top, x - dx + b.left) then At(g, y - dy + b.top, x - dx + b.left) else At(g, y, x)
  }

  function CopyBox(g: Grid, h: nat, w: nat, b: Box, dy: int, dx: int): (r: Grid)
    ensures Sized(r, h, w)
  {
    Tabulate(h, w, (y, x) => Copied(g, b, dy, dx, y, x))
  }

  lemma CopiedCells(g: Grid, h: nat, w: nat, b: Box, dy: int, dx: int)
    ensures forall y: nat, x: nat :: y < h && x < w ==> CopyBox(g, h, w, b, dy, dx)[y][x] == Copied(g, b, dy, dx, y, x)
  {
    CellsOf(h, w, (y, x) => Copied(g, b, dy, dx, y, x));
  }

  function SetCell(g: Grid, h: nat, w: nat, cy: int, cx: int, c: Cell): (r: Grid)
    ensures Sized(r, h, w)
  {
    Tabulate(h, w, (y, x) => if y == cy && x == cx then c else At(g, y, x))
  }

  lemma SetCells(g: Grid, h: nat, w: nat, cy: int, cx: int, c: Cell)
    ensures forall y: nat, x: nat :: y < h && x < w ==> SetCell(g, h, w, cy, cx, c)[y][x] == if y == cy && x == cx then c else At(g, y, x)
  {
    CellsOf(h, w, (y, x) => if y == cy && x == cx then c else At(g, y, x));
  }

  /** The grid at a new size, its old contents `down` rows lower. */
  function Refit(g: Grid, h: nat, w: nat, down: nat): (r: Grid)
    ensures Sized(r, h, w)
  {
    Tabulate(h, w, (y, x) => At(g, y - down, x))
  }

  lemma RefitCells(g: Grid, h: nat, w: nat, down: nat)
    ensures forall y: nat, x: nat :: y < h && x < w ==> Refit(g, h, w, down)[y][x] == At(g, y - down, x)
  {
    CellsOf(h, w, (y, x) => At(g, y - down, x));
  }

  // --- wrap flags travel with whole rows -----------------------------------------------

  function FlagAt(f: seq<bool>, y: int): bool { 0 <= y < |f| && f[y] }

  function MoveFlags(f: seq<bool>, top: int, bottom: int, n: int): (r: seq<bool>)
    ensures |r| == |f|
  {
    seq(|f|, y requires 0 <= y < |f| => if top <= y <= bottom then top <= y + n <= bottom && FlagAt(f, y + n) else f[y])
  }

  function RefitFlags(f: seq<bool>, h: nat, down: nat): (r: seq<bool>)
    ensures |r| == h
  {
    seq(h, y => FlagAt(f, y - down))
  }

  function ClearFlags(h: nat): (r: seq<bool>)
    ensures |r| == h
  {
    seq(h, y => false)
  }

  // --- laws --------------------------------------------------------------------------------

  lemma SameGrid(a: Grid, b: Grid, h: nat, w: nat)
    requires Sized(a, h, w) && Sized(b, h, w)
    requires forall y: nat, x: nat :: y < h && x < w ==> a[y][x] == b[y][x]
    ensures a == b
  {
    forall y: nat | y < h ensures a[y] == b[y] {
      assert |a[y]| == w && |b[y]| == w;
    }
  }

  /** Moving a box twice in the same direction is moving it once by the sum. */
  lemma MoveUpTwice(g: Grid, h: nat, w: nat, b: Box, n: int, m: int, blank: Cell)
    requires Sized(g, h, w) && Fits(b, h, w) && ((n >= 0 && m >= 0) || (n <= 0 && m <= 0))
    ensures MoveUp(MoveUp(g, h, w, b, n, blank), h, w, b, m, blank) == MoveUp(g, h, w, b, n + m, blank)
  {
    var first := MoveUp(g, h, w, b, n, blank);
    MovedUpCells(g, h, w, b, n, blank);
    MovedUpCells(g, h, w, b, n + m, blank);
    MovedUpCells(first, h, w, b, m, blank);
    SameGrid(MoveUp(first, h, w, b, m, blank), MoveUp(g, h, w, b, n + m, blank), h, w);
  }

  /** Inserting blanks and deleting them again loses exactly what was pushed out. */
  lemma InsertThenDelete(g: Grid, h: nat, w: nat, b: Box, n: int, blank: Cell, y: nat, x: nat)
    requires Sized(g, h, w) && Fits(b, h, w) && n >= 0 && y < h && x < w
    ensures
      var back := MoveLeft(MoveLeft(g, h, w, b, -n, blank), h, w, b, n, blank);
      back[y][x] == if Inside(b, y, x) && x + n > b.right then blank else g[y][x]
  {
    var moved := MoveLeft(g, h, w, b, -n, blank);
    MovedLeftCells(g, h, w, b, -n, blank);
    MovedLeftCells(moved, h, w, b, n, blank);
  }
}
