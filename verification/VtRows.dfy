/** The grid as it is stored: a list of row arrays, shifted, copied and cleared in place. */
module VtRows {
  import opened Prelude
  import opened VtCells

  type Store = seq<array<Cell>>

  /** No two rows share storage. */
  ghost predicate Distinct(rows: Store) { forall i: nat, j: nat :: i < j < |rows| ==> rows[i] != rows[j] }

  ghost predicate Shaped(rows: Store, h: nat, w: nat) {
    |rows| == h && forall y: nat :: y < h ==> rows[y].Length == w
  }

  ghost function Contents(rows: Store): (g: Grid)
    reads rows
    ensures |g| == |rows|
    ensures forall y: nat {:trigger g[y]} :: y < |rows| ==> g[y] == rows[y][..]
  {
    seq(|rows|, y requires 0 <= y < |rows| reads rows => rows[y][..])
  }

  // --- one row ---------------------------------------------------------------------------

  /** A row with columns `left` to `right` moved left by `n` (right, if negative). */
  function MovedRow(row: Row, left: int, right: int, n: int, blank: Cell): (r: Row)
    ensures |r| == |row|
  {
    seq(|row|, x requires 0 <= x < |row| => MovedLeft([row], Box(0, left, 0, right), n, blank, 0, x))
  }

  method ShiftRight(row: array<Cell>, left: int, right: int, n: int, blank: Cell)
    requires 0 <= left <= right < row.Length && n >= 1
    modifies row
    ensures row[..] == MovedRow(old(row[..]), left, right, -n, blank)
  {
    var x := right;
    while x >= left + n
      invariant left + n - 1 <= x <= right || x == right
      invariant forall k: nat :: k < row.Length ==> row[k] == if x < k <= right then old(row[k - n]) else old(row[k])
    {
      row[x] := row[x - n];
      x := x - 1;
    }
    x := left;
    while x < left + n && x <= right
      invariant left <= x <= left + n && x <= right + 1
      invariant forall k: nat :: k < row.Length ==>
                  row[k] == if left <= k < x then blank else if left + n <= k <= right then old(row[k - n]) else old(row[k])
    {
      row[x] := blank;
      x := x + 1;
    }
  }

  method ShiftLeft(row: array<Cell>, left: int, right: int, n0: int, blank: Cell)
    requires 0 <= left <= right < row.Length && n0 >= 1
    modifies row
    ensures row[..] == MovedRow(old(row[..]), left, right, n0, blank)
  {
    var n := if n0 <= right - left + 1 then n0 else right - left + 1;
    var x := left;
    while x <= right - n
      invariant left <= x <= right - n + 1
      invariant forall k: nat :: k < row.Length ==> row[k] == if left <= k < x then old(row[k + n]) else old(row[k])
    {
      row[x] := row[x + n];
      x := x + 1;
    }
    x := right - n + 1;
    while x <= right
      invariant right - n + 1 <= x <= right + 1
      invariant forall k: nat :: k < row.Length ==>
                  row[k] == if right - n < k < x then blank else if left <= k <= right - n then old(row[k + n]) else old(row[k])
    {
      row[x] := blank;
      x := x + 1;
    }
  }

  method ShiftRow(row: array<Cell>, left: int, right: int, n: int, blank: Cell)
    requires 0 <= left <= right < row.Length && n != 0
    modifies row
    ensures row[..] == MovedRow(old(row[..]), left, right, n, blank)
  {
    if n > 0 {
      ShiftLeft(row, left, right, n, blank);
    } else {
      ShiftRight(row, left, right, -n, blank);
    }
  }

  /** A row with columns `left` to `right` taken from another. */
  function Spliced(row: Row, src: Row, left: int, right: int): (r: Row)
    requires |src| == |row|
    ensures |r| == |row|
  {
    seq(|row|, x requires 0 <= x < |row| => if left <= x <= right then src[x] else row[x])
  }

  function Blanked(row: Row, left: int, right: int, blank: Cell): (r: Row)
    ensures |r| == |row|
  {
    seq(|row|, x requires 0 <= x < |row| => if left <= x <= right then blank else row[x])
  }

  /** Columns `left` to `right` of one row copied over those of another. */
  method CopyColumns(dst: array<Cell>, src: array<Cell>, left: int, right: int)
    requires dst != src && dst.Length == src.Length && 0 <= left <= right < dst.Length
    modifies dst
    ensures dst[..] == Spliced(old(dst[..]), src[..], left, right)
  {
    for x := left to right + 1
      invariant forall k: nat :: k < dst.Length ==> dst[k] == if left <= k < x then src[k] else old(dst[k])
    {
      dst[x] := src[x];
    }
  }

  method BlankColumns(row: array<Cell>, left: int, right: int, blank: Cell)
    requires 0 <= left <= right < row.Length
    modifies row
    ensures row[..] == Blanked(old(row[..]), left, right, blank)
  {
    for x := left to right + 1
      invariant forall k: nat :: k < row.Length ==> row[k] == if left <= k < x then blank else old(row[k])
    {
      row[x] := blank;
    }
  }

  /** A row with the unprotected cells of some columns blanked. */
  function ErasedRow(row: Row, left: int, right: int, m: Spare, blank: Cell): (r: Row)
    ensures |r| == |row|
  {
    seq(|row|, x requires 0 <= x < |row| => if left <= x <= right && !Spares(m, row[x]) then blank else row[x])
  }

  method EraseColumns(row: array<Cell>, left: int, right: int, m: Spare, blank: Cell)
    modifies row
    ensures row[..] == ErasedRow(old(row[..]), left, right, m, blank)
  {
    var x := left;
    while x <= right
      invariant left <= x
      invariant forall k: nat :: k < row.Length ==>
                  row[k] == if left <= k < x && k <= right && !Spares(m, old(row[k])) then blank else old(row[k])
    {
      if 0 <= x < row.Length {
        if !Spares(m, row[x]) { row[x] := blank; }
      }
      x := x + 1;
    }
  }

  // --- a box of rows ----------------------------------------------------------------------------

  /** Row `y` of a grid operation, as an operation on that row. */
  lemma MovedLeftRow(g: Grid, h: nat, w: nat, b: Box, n: int, blank: Cell, y: nat)
    requires Sized(g, h, w) && y < h
    ensures MoveLeft(g, h, w, b, n, blank)[y] ==
            if b.top <= y <= b.bottom then MovedRow(g[y], b.left, b.right, n, blank) else g[y]
  {
    var r := MoveLeft(g, h, w, b, n, blank)[y];
    var e := if b.top <= y <= b.bottom then MovedRow(g[y], b.left, b.right, n, blank) else g[y];
    MovedLeftCells(g, h, w, b, n, blank);
    forall x: nat | x < w ensures r[x] == e[x] {}
  }

  method ShiftBox(rows: Store, h: nat, w: nat, b: Box, n: int, blank: Cell)
    requires Shaped(rows, h, w) && Distinct(rows) && Fits(b, h, w) && n != 0
    modifies rows
    ensures Contents(rows) == MoveLeft(old(Contents(rows)), h, w, b, n, blank)
  {
    ghost var g := Contents(rows);
    for y := b.top to b.bottom + 1
      invariant forall k: nat :: k < h && b.top <= k < y ==> rows[k][..] == MovedRow(g[k], b.left, b.right, n, blank)
      invariant forall k: nat :: k < h && !(b.top <= k < y) ==> rows[k][..] == g[k]
    {
      var row := rows[y];
      assert row[..] == g[y];
      ShiftRow(row, b.left, b.right, n, blank);
    }
    forall y: nat | y < h ensures rows[y][..] == MoveLeft(g, h, w, b, n, blank)[y] {
      MovedLeftRow(g, h, w, b, n, blank, y);
    }
    SameRows(rows, MoveLeft(g, h, w, b, n, blank));
  }

  lemma ErasedRowIs(g: Grid, h: nat, w: nat, b: Box, m: Spare, blank: Cell, y: nat)
    requires Sized(g, h, w) && y < h
    ensures Erase(g, h, w, b, m, blank)[y] ==
            if b.top <= y <= b.bottom then ErasedRow(g[y], b.left, b.right, m, blank) else g[y]
  {
    var r := Erase(g, h, w, b, m, blank)[y];
    var e := if b.top <= y <= b.bottom then ErasedRow(g[y], b.left, b.right, m, blank) else g[y];
    ErasedCells(g, h, w, b, m, blank);
    forall x: nat | x < w ensures r[x] == e[x] {}
  }

  method EraseRows(rows: Store, h: nat, w: nat, b: Box, m: Spare, blank: Cell)
    requires Shaped(rows, h, w) && Distinct(rows)
    modifies rows
    ensures Contents(rows) == Erase(old(Contents(rows)), h, w, b, m, blank)
  {
    ghost var g := Contents(rows);
    var y := b.top;
    while y <= b.bottom
      invariant b.top <= y <= Max(b.bottom + 1, b.top)
      invariant forall k: nat :: k < h && b.top <= k < y ==> rows[k][..] == ErasedRow(g[k], b.left, b.right, m, blank)
      invariant forall k: nat :: k < h && !(b.top <= k < y) ==> rows[k][..] == g[k]
    {
      if 0 <= y < h {
        var row := rows[y];
        assert row[..] == g[y];
        EraseColumns(row, b.left, b.right, m, blank);
      }
      y := y + 1;
    }
    forall y: nat | y < h ensures rows[y][..] == Erase(g, h, w, b, m, blank)[y] {
      ErasedRowIs(g, h, w, b, m, blank, y);
    }
    SameRows(rows, Erase(g, h, w, b, m, blank));
  }

  /** A row that holds what a scroll leaves there is that row of the scrolled grid. */
  lemma MovedUpRow(g: Grid, h: nat, w: nat, b: Box, n: int, blank: Cell, y: nat, row: Row)
    requires Sized(g, h, w) && y < h && |row| == w
    requires forall x: nat :: x < w ==> row[x] == MovedUp(g, b, n, blank, y, x)
    ensures MoveUp(g, h, w, b, n, blank)[y] == row
  {
    var r := MoveUp(g, h, w, b, n, blank)[y];
    MovedUpCells(g, h, w, b, n, blank);
    forall x: nat | x < w ensures r[x] == row[x] {}
  }

  /** Row `y` with the box's columns of the row `n` below it. */
  function Taken(g: Grid, w: nat, b: Box, n: int, y: nat): (r: Row)
    requires Sized(g, |g|, w) && y < |g| && 0 <= y + n < |g|
    ensures |r| == w
  {
    Spliced(g[y], g[y + n], b.left, b.right)
  }

  /** What a scroll makes of each row. */
  lemma ScrolledRow(g: Grid, h: nat, w: nat, b: Box, n: int, blank: Cell, y: nat)
    requires Sized(g, h, w) && Fits(b, h, w) && y < h
    ensures MoveUp(g, h, w, b, n, blank)[y] ==
            if !(b.top <= y <= b.bottom) then g[y]
            else if b.top <= y + n <= b.bottom then Taken(g, w, b, n, y)
            else Blanked(g[y], b.left, b.right, blank)
  {
    if !(b.top <= y <= b.bottom) {
      MovedUpRow(g, h, w, b, n, blank, y, g[y]);
    } else if b.top <= y + n <= b.bottom {
      MovedUpRow(g, h, w, b, n, blank, y, Taken(g, w, b, n, y));
    } else {
      MovedUpRow(g, h, w, b, n, blank, y, Blanked(g[y], b.left, b.right, blank));
    }
  }

  /** One row takes the box's columns of the row `n` below it. */
  method TakeRow(rows: Store, ghost g: Grid, w: nat, b: Box, n: int, y: nat)
    requires Shaped(rows, |rows|, w) && Distinct(rows) && Fits(b, |rows|, w) && n != 0
    requires Sized(g, |rows|, w) && y < |rows| && 0 <= y + n < |rows|
    requires rows[y][..] == g[y] && rows[y + n][..] == g[y + n]
    modifies rows[y]
    ensures rows[y][..] == Taken(g, w, b, n, y)
  {
    CopyColumns(rows[y], rows[y + n], b.left, b.right);
  }

  /** All rows of the box but the bottom one take the row below. */
  method TakeFromBelow(rows: Store, ghost g: Grid, w: nat, b: Box)
    requires Shaped(rows, |rows|, w) && Distinct(rows) && Fits(b, |rows|, w) && g == Contents(rows)
    modifies rows
    ensures forall k: nat :: k < |rows| && b.top <= k < b.bottom ==> rows[k][..] == Taken(g, w, b, 1, k)
    ensures forall k: nat :: k < |rows| && !(b.top <= k < b.bottom) ==> rows[k][..] == g[k]
  {
    for y := b.top to b.bottom
      invariant forall k: nat :: k < |rows| && b.top <= k < y ==> rows[k][..] == Taken(g, w, b, 1, k)
      invariant forall k: nat :: k < |rows| && !(b.top <= k < y) ==> rows[k][..] == g[k]
    {
      TakeRow(rows, g, w, b, 1, y);
    }
  }

  method TakeFromAbove(rows: Store, ghost g: Grid, w: nat, b: Box)
    requires Shaped(rows, |rows|, w) && Distinct(rows) && Fits(b, |rows|, w) && g == Contents(rows)
    modifies rows
    ensures forall k: nat :: k < |rows| && b.top < k <= b.bottom ==> rows[k][..] == Taken(g, w, b, -1, k)
    ensures forall k: nat :: k < |rows| && !(b.top < k <= b.bottom) ==> rows[k][..] == g[k]
  {
    var y := b.bottom;
    while y > b.top
      invariant b.top <= y <= b.bottom
      invariant forall k: nat :: k < |rows| && y < k <= b.bottom ==> rows[k][..] == Taken(g, w, b, -1, k)
      invariant forall k: nat :: k < |rows| && !(y < k <= b.bottom) ==> rows[k][..] == g[k]
    {
      TakeRow(rows, g, w, b, -1, y);
      y := y - 1;
    }
  }

  /** The box one row up, its bottom row blanked; row arrays stay where they are. */
  method BoxUp(rows: Store, h: nat, w: nat, b: Box, blank: Cell)
    requires Shaped(rows, h, w) && Distinct(rows) && Fits(b, h, w)
    modifies rows
    ensures Contents(rows) == MoveUp(old(Contents(rows)), h, w, b, 1, blank)
  {
    ghost var g := Contents(rows);
    TakeFromBelow(rows, g, w, b);
    assert rows[b.bottom][..] == g[b.bottom];
    BlankColumns(rows[b.bottom], b.left, b.right, blank);
    forall y: nat | y < h ensures rows[y][..] == MoveUp(g, h, w, b, 1, blank)[y] {
      ScrolledRow(g, h, w, b, 1, blank, y);
    }
    SameRows(rows, MoveUp(g, h, w, b, 1, blank));
  }

  method BoxDown(rows: Store, h: nat, w: nat, b: Box, blank: Cell)
    requires Shaped(rows, h, w) && Distinct(rows) && Fits(b, h, w)
    modifies rows
    ensures Contents(rows) == MoveUp(old(Contents(rows)), h, w, b, -1, blank)
  {
    ghost var g := Contents(rows);
    TakeFromAbove(rows, g, w, b);
    assert rows[b.top][..] == g[b.top];
    BlankColumns(rows[b.top], b.left, b.right, blank);
    forall y: nat | y < h ensures rows[y][..] == MoveUp(g, h, w, b, -1, blank)[y] {
      ScrolledRow(g, h, w, b, -1, blank, y);
    }
    SameRows(rows, MoveUp(g, h, w, b, -1, blank));
  }

  lemma SameRows(rows: Store, g: Grid)
    requires |rows| == |g| && forall y: nat :: y < |rows| ==> rows[y][..] == g[y]
    ensures Contents(rows) == g
  {}

  // --- a box copied elsewhere -------------------------------------------------------------

  /** Cells written over a row from column `at` on, as far as the row goes. */
  function Pasted(row: Row, at: nat, src: Row): (r: Row)
    ensures |r| == |row|
  {
    seq(|row|, x requires 0 <= x < |row| => if at <= x < at + |src| then src[x - at] else row[x])
  }

  method PasteRow(row: array<Cell>, at: nat, src: Row)
    modifies row
    ensures row[..] == Pasted(old(row[..]), at, src)
  {
    for j := 0 to |src|
      invariant forall x: nat :: x < row.Length ==> row[x] == if at <= x < at + j then src[x - at] else old(row[x])
    {
      if at + j < row.Length { row[at + j] := src[j]; }
    }
  }

  lemma CopiedRow(g: Grid, h: nat, w: nat, b: Box, dy: nat, dx: nat, y: nat, row: Row)
    requires Sized(g, h, w) && y < h && |row| == w
    requires forall x: nat :: x < w ==> row[x] == Copied(g, b, dy, dx, y, x)
    ensures CopyBox(g, h, w, b, dy, dx)[y] == row
  {
    var r := CopyBox(g, h, w, b, dy, dx)[y];
    CopiedCells(g, h, w, b, dy, dx);
    forall x: nat | x < w ensures r[x] == row[x] {}
  }

  lemma PastedRow(g: Grid, h: nat, w: nat, b: Box, dy: nat, dx: nat, y: nat)
    requires Sized(g, h, w) && Fits(b, h, w) && y < h
    ensures CopyBox(g, h, w, b, dy, dx)[y] ==
            if dy <= y <= dy + b.bottom - b.top then Pasted(g[y], dx, g[b.top + y - dy][b.left..b.right + 1]) else g[y]
  {
    if dy <= y <= dy + b.bottom - b.top {
      var src := g[b.top + y - dy][b.left..b.right + 1];
      CopiedRow(g, h, w, b, dy, dx, y, Pasted(g[y], dx, src));
    } else {
      CopiedRow(g, h, w, b, dy, dx, y, g[y]);
    }
  }

  method CutBox(rows: Store, h: nat, w: nat, b: Box) returns (buf: seq<Row>)
    requires Shaped(rows, h, w) && Fits(b, h, w)
    ensures |buf| == b.bottom - b.top + 1
    ensures forall i: nat :: i < |buf| ==> buf[i] == Contents(rows)[b.top + i][b.left..b.right + 1]
  {
    buf := [];
    for y := b.top to b.bottom + 1
      invariant |buf| == y - b.top
      invariant forall i: nat :: i < |buf| ==> buf[i] == rows[b.top + i][b.left..b.right + 1]
    {
      buf := buf + [rows[y][b.left..b.right + 1]];
    }
  }

  /** The buffered rows written out one below the other, as far as the screen goes. */
  method PasteRows(rows: Store, dy: nat, dx: nat, buf: seq<Row>)
    requires Distinct(rows)
    modifies rows
    ensures forall k: nat :: k < |rows| ==>
              rows[k][..] == if dy <= k < dy + |buf| then Pasted(old(rows[k][..]), dx, buf[k - dy]) else old(rows[k][..])
  {
    for i := 0 to |buf|
      invariant forall k: nat :: k < |rows| ==>
                  rows[k][..] == if dy <= k < dy + i then Pasted(old(rows[k][..]), dx, buf[k - dy]) else old(rows[k][..])
    {
      if dy + i < |rows| { PasteRow(rows[dy + i], dx, buf[i]); }
    }
  }

  /** The box copied through a buffer, so that it may overlap where it goes. */
  method PasteBox(rows: Store, h: nat, w: nat, b: Box, dy: nat, dx: nat)
    requires Shaped(rows, h, w) && Distinct(rows) && Fits(b, h, w)
    modifies rows
    ensures Contents(rows) == CopyBox(old(Contents(rows)), h, w, b, dy, dx)
  {
    ghost var g := Contents(rows);
    var buf := CutBox(rows, h, w, b);
    PasteRows(rows, dy, dx, buf);
    forall y: nat | y < h ensures rows[y][..] == CopyBox(g, h, w, b, dy, dx)[y] {
      PastedRow(g, h, w, b, dy, dx, y);
    }
    SameRows(rows, CopyBox(g, h, w, b, dy, dx));
  }
}
