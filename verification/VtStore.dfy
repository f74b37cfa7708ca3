/** The screen's rows as the program keeps them: arrays that scrolling moves by reference,
    boxed scrolling and editing change in place, and switching screens swaps wholesale.
    Each method does to the stored rows what the value operations of the screen say, keeps
    every row in storage of its own, and leaves the rows behind the screen alone. */
module VtStore {
  import opened Prelude
  import opened Sgr
  import opened VtCells
  import V = VtScreen
  import opened VtRows

  /** Slots `top` to `bottom` moved by `n` by reference, all but the slot filled anew. */
  ghost predicate Shifted(before: Store, after: Store, top: int, bottom: int, n: int, filled: int) {
    && |after| == |before| && 0 <= top <= bottom < |before|
    && forall k: nat :: k < |after| && k != filled ==>
         0 <= (if top <= k <= bottom then k + n else k) < |before| &&
         after[k] == before[if top <= k <= bottom then k + n else k]
  }

  lemma FlagsShifted(before: seq<bool>, after: seq<bool>, top: nat, bottom: nat, n: int)
    requires |after| == |before| && top <= bottom < |before| && (n == 1 || n == -1)
    requires
      var filled := if n == 1 then bottom else top;
      !after[filled] && forall k: nat :: k < |after| && k != filled ==> after[k] == FlagAt(before, if top <= k <= bottom then k + n else k)
    ensures after == MoveFlags(before, top, bottom, n)
  {}

  /** Moving rows by reference moves what they hold. */
  lemma ShiftedContents(before: Store, after: Store, h: nat, w: nat, b: Box, n: int, blank: Cell)
    requires Shaped(before, h, w) && Fits(b, h, w) && b.left == 0 && b.right == w - 1 && (n == 1 || n == -1)
    requires var filled := if n == 1 then b.bottom else b.top;
             Shifted(before, after, b.top, b.bottom, n, filled) && after[filled][..] == seq(w, x => blank)
    ensures Shaped(after, h, w) && Contents(after) == MoveUp(Contents(before), h, w, b, n, blank)
  {
    var g, r := Contents(before), Contents(after);
    var filled := if n == 1 then b.bottom else b.top;
    forall y: nat | y < h ensures after[y].Length == w && r[y] == MoveUp(g, h, w, b, n, blank)[y] {
      WholeRowMoved(g, h, w, b, n, blank, y);
      if y == filled { assert |after[y][..]| == w; }
    }
  }

  lemma WholeRowMoved(g: Grid, h: nat, w: nat, b: Box, n: int, blank: Cell, y: nat)
    requires Sized(g, h, w) && Fits(b, h, w) && b.left == 0 && b.right == w - 1 && y < h
    ensures MoveUp(g, h, w, b, n, blank)[y] ==
            if !(b.top <= y <= b.bottom) then g[y]
            else if b.top <= y + n <= b.bottom then g[y + n]
            else seq(w, x => blank)
  {
    var m := MoveUp(g, h, w, b, n, blank)[y];
    MovedUpCells(g, h, w, b, n, blank);
    forall x: nat | x < w ensures m[x] == MovedUp(g, b, n, blank, y, x) {}
  }

  /** A row that comes in anew shares storage with none. */
  lemma ShiftedDistinct(before: Store, after: Store, top: int, bottom: int, n: int, filled: int)
    requires Distinct(before) && (n == 1 || n == -1) && filled == (if n == 1 then bottom else top)
    requires Shifted(before, after, top, bottom, n, filled)
    requires forall k: nat :: k < |before| ==> after[filled] != before[k]
    ensures Distinct(after)
  {}

  /** Slots `top + 1` to `bottom` move up by one, rows by reference with their flags, and
      the new row takes the last. */
  method SlideUp(rows: Store, flags: seq<bool>, top: nat, bottom: nat, row: array<Cell>) returns (r: Store, f: seq<bool>)
    requires |flags| == |rows| && top <= bottom < |rows|
    ensures Shifted(rows, r, top, bottom, 1, bottom) && r[bottom] == row
    ensures f == MoveFlags(flags, top, bottom, 1)
  {
    r, f := rows, flags;
    for y := top to bottom
      invariant |r| == |rows| && |f| == |flags|
      invariant forall k: nat :: k < |rows| ==> r[k] == rows[if top <= k < y then k + 1 else k]
      invariant forall k: nat :: k < |rows| ==> f[k] == flags[if top <= k < y then k + 1 else k]
    {
      r := r[y := r[y + 1]];
      f := f[y := f[y + 1]];
    }
    r := r[bottom := row];
    f := f[bottom := false];
    FlagsShifted(flags, f, top, bottom, 1);
  }

  method SlideDown(rows: Store, flags: seq<bool>, top: nat, bottom: nat, row: array<Cell>) returns (r: Store, f: seq<bool>)
    requires |flags| == |rows| && top <= bottom < |rows|
    ensures Shifted(rows, r, top, bottom, -1, top) && r[top] == row
    ensures f == MoveFlags(flags, top, bottom, -1)
  {
    r, f := rows, flags;
    var y := bottom;
    while y > top
      invariant top <= y <= bottom && |r| == |rows| && |f| == |flags|
      invariant forall k: nat :: k < |rows| ==> r[k] == rows[if y < k <= bottom then k - 1 else k]
      invariant forall k: nat :: k < |rows| ==> f[k] == flags[if y < k <= bottom then k - 1 else k]
    {
      r := r[y := r[y - 1]];
      f := f[y := f[y - 1]];
      y := y - 1;
    }
    r := r[top := row];
    f := f[top := false];
    FlagsShifted(flags, f, top, bottom, -1);
  }

  method Slide(rows: Store, flags: seq<bool>, top: nat, bottom: nat, up: bool, row: array<Cell>) returns (r: Store, f: seq<bool>)
    requires |flags| == |rows| && top <= bottom < |rows|
    ensures
      var n, filled := if up then 1 else -1, if up then bottom else top;
      Shifted(rows, r, top, bottom, n, filled) && r[filled] == row && f == MoveFlags(flags, top, bottom, n)
  {
    if up {
      r, f := SlideUp(rows, flags, top, bottom, row);
    } else {
      r, f := SlideDown(rows, flags, top, bottom, row);
    }
  }

  /** Whole rows of a box moved by one, a new blank row taking the place left. */
  method SlideRows(rows: Store, flags: seq<bool>, h: nat, w: nat, b: Box, up: bool, row: array<Cell>, ghost blank: Cell)
    returns (r: Store, f: seq<bool>)
    requires Shaped(rows, h, w) && |flags| == h && Distinct(rows) && Fits(b, h, w) && b.left == 0 && b.right == w - 1
    requires row[..] == seq(w, x => blank) && forall k: nat :: k < h ==> row != rows[k]
    ensures Shaped(r, h, w) && Distinct(r) && forall k: nat :: k < h ==> r[k] == row || r[k] in rows
    ensures Contents(r) == MoveUp(Contents(rows), h, w, b, if up then 1 else -1, blank)
    ensures f == MoveFlags(flags, b.top, b.bottom, if up then 1 else -1)
  {
    r, f := Slide(rows, flags, b.top, b.bottom, up, row);
    ShiftedContents(rows, r, h, w, b, if up then 1 else -1, blank);
    ShiftedDistinct(rows, r, b.top, b.bottom, if up then 1 else -1, if up then b.bottom else b.top);
  }

  lemma MoveNothing(g: Grid, f: seq<bool>, h: nat, w: nat, b: Box, blank: Cell)
    requires Sized(g, h, w) && |f| == h && Fits(b, h, w)
    ensures MoveUp(g, h, w, b, 0, blank) == g && MoveFlags(f, b.top, b.bottom, 0) == f
  {
    MovedUpCells(g, h, w, b, 0, blank);
    SameGrid(MoveUp(g, h, w, b, 0, blank), g, h, w);
    var r := MoveFlags(f, b.top, b.bottom, 0);
    forall y: nat | y < h ensures r[y] == f[y] {
      V.FlagMoved(f, b.top, b.bottom, 0, y);
    }
  }

  /** The box covers whole rows. */
  predicate Spans(b: Box, w: nat) { b.left == 0 && b.right == w - 1 }

  /** Every row was a row before or is new. */
  twostate predicate OwnRows(before: Store, new after: Store) {
    forall k: nat :: k < |after| ==> after[k] in before || fresh(after[k])
  }

  function Signed(up: bool, n: int): int { if up then n else -n }

  method MakeRow(w: nat, bg: Color) returns (row: array<Cell>)
    ensures fresh(row) && row[..] == BlankRow(w, bg)
  {
    row := new Cell[w](_ => BlankOn(bg));
  }

  method BlankRows(h: nat, w: nat) returns (rows: Store)
    ensures Shaped(rows, h, w) && Distinct(rows) && forall k: nat :: k < h ==> fresh(rows[k])
    ensures Contents(rows) == BlankGrid(h, w)
  {
    rows := [];
    while |rows| < h
      invariant |rows| <= h && Distinct(rows)
      invariant forall k: nat :: k < |rows| ==>
                  fresh(rows[k]) && rows[k].Length == w && rows[k][..] == BlankRow(w, DEFAULT_COLOR)
    {
      var row := MakeRow(w, DEFAULT_COLOR);
      assert |row[..]| == w;
      rows := rows + [row];
    }
    BlankCells(h, w);
    SameGrid(Contents(rows), BlankGrid(h, w), h, w);
  }

  /** Rows of their own holding what the given rows hold. */
  method CopyRows(rows: Store, w: nat) returns (copies: Store)
    requires Shaped(rows, |rows|, w)
    ensures Shaped(copies, |rows|, w) && Distinct(copies) && forall k: nat :: k < |rows| ==> fresh(copies[k])
    ensures Contents(copies) == Contents(rows)
  {
    copies := [];
    while |copies| < |rows|
      invariant |copies| <= |rows| && Distinct(copies)
      invariant forall k: nat :: k < |copies| ==>
                  fresh(copies[k]) && copies[k].Length == w && copies[k][..] == rows[k][..]
    {
      var row := FitRow(rows[|copies|], w);
      assert row[..] == rows[|copies|][..];
      copies := copies + [row];
    }
  }

  /** A new row of `w` cells with as much of the old row as fits. */
  method FitRow(src: array<Cell>, w: nat) returns (row: array<Cell>)
    ensures fresh(row) && row.Length == w
    ensures forall x: nat :: x < w ==> row[x] == if x < src.Length then src[x] else BLANK
  {
    row := MakeRow(w, DEFAULT_COLOR);
    assert |row[..]| == w;
    assert forall x: nat :: x < w ==> row[x] == row[..][x] == BLANK;
    var x := 0;
    while x < w && x < src.Length
      invariant 0 <= x <= w && x <= src.Length
      invariant forall k: nat :: k < w ==> row[k] == if k < x then src[k] else BLANK
    {
      row[x] := src[x];
      x := x + 1;
    }
  }

  /** The row a refitted grid holds at `y`. */
  lemma RefitRow(g: Grid, h: nat, w: nat, down: nat, y: nat, row: Row)
    requires y < h && |row| == w && forall x: nat :: x < w ==> row[x] == At(g, y - down, x)
    ensures Refit(g, h, w, down)[y] == row
  {
    var r := Refit(g, h, w, down)[y];
    RefitCells(g, h, w, down);
    forall x: nat | x < w ensures r[x] == row[x] {}
  }

  /** Row `y` at the new size: the row itself if it still fits and may be shared, a copy of
      what fits of it if not, a blank one where there was none. */
  method RowAt(rows: Store, h: nat, w: nat, down: nat, share: bool, y: nat) returns (row: array<Cell>)
    requires y < h
    ensures row.Length == w && row[..] == Refit(Contents(rows), h, w, down)[y]
    ensures fresh(row) || (share && down <= y < down + |rows| && row == rows[y - down])
  {
    if down <= y < down + |rows| {
      if share && rows[y - down].Length == w {
        row := rows[y - down];
      } else {
        row := FitRow(rows[y - down], w);
      }
    } else {
      row := MakeRow(w, DEFAULT_COLOR);
      assert |row[..]| == w;
    }
    RefitRow(Contents(rows), h, w, down, y, row[..]);
  }

  /** The rows at a new size: a row that still fits is kept, any other is copied into a
      new one, and new rows are blank. `share` false copies them all. */
  method RefitRows(rows: Store, h: nat, w: nat, down: nat, share: bool) returns (r: Store)
    requires Distinct(rows)
    ensures Shaped(r, h, w) && Distinct(r) && OwnRows(if share then rows else [], r)
    ensures Contents(r) == Refit(Contents(rows), h, w, down)
  {
    r := [];
    ghost var g := Contents(rows);
    while |r| < h
      invariant |r| <= h && Distinct(r) && Contents(rows) == g
      invariant forall k: nat :: k < |r| ==> r[k].Length == w && r[k][..] == Refit(g, h, w, down)[k]
      invariant forall k: nat :: k < |r| ==>
                  fresh(r[k]) || (share && down <= k < down + |rows| && r[k] == rows[k - down])
    {
      var row := RowAt(rows, h, w, down, share, |r|);
      r := r + [row];
    }
  }

  /** What an alternate session starts with: the grid kept, unless it is to be cleared or
      does not have the screen's size. */
  function AltStart(kept: Grid, h: nat, w: nat, clear: bool): Grid {
    if clear || !V.SameShape(kept, h, w) then BlankGrid(h, w) else kept
  }

  lemma ScrolledMore(g: Grid, before: Grid, after: Grid, h: nat, w: nat, b: Box, n: int, m: int, blank: Cell)
    requires Sized(g, h, w) && Fits(b, h, w) && ((n >= 0 && m >= 0) || (n <= 0 && m <= 0))
    requires before == MoveUp(g, h, w, b, n, blank) && after == MoveUp(before, h, w, b, m, blank)
    ensures after == MoveUp(g, h, w, b, n + m, blank)
  {
    MoveUpTwice(g, h, w, b, n, m, blank);
  }

  lemma FlaggedMore(f: seq<bool>, before: seq<bool>, after: seq<bool>, top: int, bottom: int, n: int, m: int)
    requires (n >= 0 && m >= 0) || (n <= 0 && m <= 0)
    requires before == MoveFlags(f, top, bottom, n) && after == MoveFlags(before, top, bottom, m)
    ensures after == MoveFlags(f, top, bottom, n + m)
  {
    V.FlagsTwice(f, top, bottom, n, m);
  }

  /** How far the rows move down at a new height: new rows come above an alternate
      screen's contents and below a main screen's. */
  function Down(before: nat, rows: nat, alt: bool): nat { if rows > before && alt then rows - before else 0 }

  /** Rows put aside at the new size, unless they have it already. */
  function FitSaved(g: Grid, rows: nat, cols: nat): Grid {
    if V.SameShape(g, rows, cols) then g else Refit(g, rows, cols, 0)
  }

  /** The row arrays of a list, given row by row; `ArraysOf` says which they are. */
  ghost function Arrays(rows: Store): set<array<Cell>>
    decreases |rows|
  {
    if rows == [] then {} else Arrays(rows[..|rows| - 1]) + {rows[|rows| - 1]}
  }

  lemma {:induction false} ArraysOf(rows: Store)
    ensures forall r :: r in Arrays(rows) <==> r in rows
    decreases |rows|
  {
    if rows != [] {
      ArraysOf(rows[..|rows| - 1]);
      assert rows == rows[..|rows| - 1] + [rows[|rows| - 1]];
    }
  }

  class RowStore {
    var height: nat
    var width: nat
    var cells: Store
    var wrapped: seq<bool>
    var inAlt: bool
    /** The main screen while the alternate screen is up. */
    var saved: Store
    var savedWrapped: seq<bool>
    /** The alternate screen while the main screen is up, if one is kept. */
    var stash: Store
    /** Row arrays the screen showing may write; those behind it are not among them. */
    ghost var repr: set<array<Cell>>

    constructor (rows: nat, cols: nat)
      requires rows >= 1 && cols >= 1
      ensures Valid() && height == rows && width == cols && !inAlt && stash == [] && fresh(Owned())
      ensures Contents(cells) == BlankGrid(rows, cols) && wrapped == ClearFlags(rows)
    {
      height, width, wrapped, inAlt, saved, savedWrapped, stash := rows, cols, ClearFlags(rows), false, [], [], [];
      new;
      cells := BlankRows(rows, cols);
      repr := set r | r in cells;
    }

    /** The rows of the screen not showing. */
    ghost function Behind(): Store
      reads this`inAlt, this`saved, this`stash
    {
      if inAlt then saved else stash
    }

    ghost function Hidden(): Grid
      reads this`inAlt, this`saved, this`stash, Behind()
    {
      Contents(Behind())
    }

    /** Every row array there is, on the screen or behind it. */
    ghost function Owned(): set<array<Cell>>
      reads this`repr, this`inAlt, this`saved, this`stash
    {
      repr + Arrays(Behind())
    }

    /** Sizes agree, and no two rows share storage, on the screen or behind it. */
    ghost predicate Valid()
      reads this`height, this`width, this`cells, this`wrapped, this`inAlt, this`saved, this`stash, this`repr
    {
      && height >= 1 && width >= 1 && Shaped(cells, height, width) && |wrapped| == height
      && Distinct(cells) && (forall k: nat :: k < |cells| ==> cells[k] in repr)
      && Distinct(Behind()) && (forall k: nat :: k < |Behind()| ==> Behind()[k] !in repr)
      && (Behind() == [] || Shaped(Behind(), |Behind()|, Behind()[0].Length))
    }

    lemma NoneShared()
      requires Valid()
      ensures Distinct(cells + Behind())
    {
      var all := cells + Behind();
      forall i: nat, j: nat | i < j < |all| ensures all[i] != all[j] {
        if i < |cells| <= j { assert all[i] in repr && all[j] !in repr; }
      }
    }

    /** One step of a scroll: whole rows by reference when the box spans the screen,
        columns copied in place when it does not. */
    method ScrollStep(b: Box, up: bool, bg: Color)
      requires Valid() && Fits(b, height, width)
      modifies this`cells, this`wrapped, this`repr, repr
      ensures Valid() && fresh(repr - old(repr))
      ensures Contents(cells) == MoveUp(old(Contents(cells)), height, width, b, Signed(up, 1), BlankOn(bg))
      ensures wrapped == if Spans(b, width) then MoveFlags(old(wrapped), b.top, b.bottom, Signed(up, 1)) else old(wrapped)
      ensures Hidden() == old(Hidden())
    {
      if Spans(b, width) {
        RowStep(b, up, bg);
      } else if up {
        BoxUp(cells, height, width, b, BlankOn(bg));
      } else {
        BoxDown(cells, height, width, b, BlankOn(bg));
      }
    }

    /** Whole rows by reference, and a new row. */
    method RowStep(b: Box, up: bool, bg: Color)
      requires Valid() && Fits(b, height, width) && Spans(b, width)
      modifies this`cells, this`wrapped, this`repr
      ensures Valid() && fresh(repr - old(repr)) && wrapped == MoveFlags(old(wrapped), b.top, b.bottom, Signed(up, 1))
      ensures Contents(cells) == MoveUp(old(Contents(cells)), height, width, b, Signed(up, 1), BlankOn(bg))
    {
      ghost var before, g := cells, Contents(cells);
      var row := MakeRow(width, bg);
      assert Contents(before) == g;
      cells, wrapped := SlideRows(cells, wrapped, height, width, b, up, row, BlankOn(bg));
      repr := repr + {row};
    }

    method ScrollOnce(ghost g: Grid, ghost f: seq<bool>, b: Box, ghost n: int, up: bool, bg: Color)
      requires Valid() && Fits(b, height, width) && Sized(g, height, width) && Signed(up, n) >= 0
      requires Contents(cells) == MoveUp(g, height, width, b, n, BlankOn(bg))
      requires Spans(b, width) ==> wrapped == MoveFlags(f, b.top, b.bottom, n)
      modifies this`cells, this`wrapped, this`repr, repr
      ensures Valid() && fresh(repr - old(repr))
      ensures Contents(cells) == MoveUp(g, height, width, b, n + Signed(up, 1), BlankOn(bg))
      ensures if Spans(b, width) then wrapped == MoveFlags(f, b.top, b.bottom, n + Signed(up, 1)) else wrapped == old(wrapped)
    {
      ghost var before, flags := Contents(cells), wrapped;
      ScrollStep(b, up, bg);
      ScrolledMore(g, before, Contents(cells), height, width, b, n, Signed(up, 1), BlankOn(bg));
      if Spans(b, width) { FlaggedMore(f, flags, wrapped, b.top, b.bottom, n, Signed(up, 1)); }
    }

    /** `n` steps, one at a time. */
    method ScrollSteps(ghost g: Grid, ghost f: seq<bool>, b: Box, n: nat, up: bool, bg: Color)
      requires Valid() && Fits(b, height, width) && Sized(g, height, width)
      requires Contents(cells) == MoveUp(g, height, width, b, 0, BlankOn(bg)) && wrapped == MoveFlags(f, b.top, b.bottom, 0)
      modifies this`cells, this`wrapped, this`repr, repr
      ensures Valid() && fresh(repr - old(repr))
      ensures Contents(cells) == MoveUp(g, height, width, b, Signed(up, n), BlankOn(bg))
      ensures if Spans(b, width) then wrapped == MoveFlags(f, b.top, b.bottom, Signed(up, n)) else wrapped == old(wrapped)
    {
      ghost var moved := 0;
      for i := 0 to n
        invariant Valid() && fresh(repr - old(repr)) && moved == Signed(up, i)
        invariant Contents(cells) == MoveUp(g, height, width, b, moved, BlankOn(bg))
        invariant if Spans(b, width) then wrapped == MoveFlags(f, b.top, b.bottom, moved) else wrapped == old(wrapped)
      {
        ScrollOnce(g, f, b, moved, up, bg);
        moved := moved + Signed(up, 1);
      }
    }

    method Scroll(b: Box, n: nat, up: bool, bg: Color)
      requires Valid() && Fits(b, height, width)
      modifies this`cells, this`wrapped, this`repr, repr
      ensures Valid() && fresh(repr - old(repr)) && Hidden() == old(Hidden())
      ensures Contents(cells) == MoveUp(old(Contents(cells)), height, width, b, Signed(up, n), BlankOn(bg))
      ensures wrapped == if Spans(b, width) then MoveFlags(old(wrapped), b.top, b.bottom, Signed(up, n)) else old(wrapped)
    {
      MoveNothing(Contents(cells), wrapped, height, width, b, BlankOn(bg));
      ScrollSteps(Contents(cells), wrapped, b, n, up, bg);
    }

    /** Characters or columns inserted (`n` negative) or deleted. */
    method ShiftColumns(b: Box, n: int, bg: Color)
      requires Valid() && Fits(b, height, width) && n != 0
      modifies repr
      ensures Valid() && Hidden() == old(Hidden())
      ensures Contents(cells) == MoveLeft(old(Contents(cells)), height, width, b, n, BlankOn(bg))
    {
      ShiftBox(cells, height, width, b, n, BlankOn(bg));
    }

    method EraseBox(b: Box, m: Spare, blank: Cell)
      requires Valid()
      modifies repr
      ensures Valid() && Hidden() == old(Hidden())
      ensures Contents(cells) == Erase(old(Contents(cells)), height, width, b, m, blank)
    {
      EraseRows(cells, height, width, b, m, blank);
    }

    /** The box copied over the place it is sent to, as far as the screen goes. */
    method CopyBox(b: Box, dy: nat, dx: nat)
      requires Valid() && Fits(b, height, width)
      modifies repr
      ensures Valid() && Hidden() == old(Hidden())
      ensures Contents(cells) == VtCells.CopyBox(old(Contents(cells)), height, width, b, dy, dx)
    {
      PasteBox(cells, height, width, b, dy, dx);
    }

    /** The rows behind the screen are dropped, and the rows showing are the main screen's. */
    method DropBehind()
      requires Valid()
      modifies this`inAlt, this`saved, this`stash, this`wrapped
      ensures Valid() && !inAlt && Behind() == [] && wrapped == ClearFlags(height) && Owned() == repr
    {
      inAlt, saved, stash, wrapped := false, [], [], ClearFlags(height);
    }

    method PutCell(y: nat, x: nat, c: Cell)
      requires Valid() && y < height && x < width
      modifies repr
      ensures Valid() && Hidden() == old(Hidden())
      ensures Contents(cells) == SetCell(old(Contents(cells)), height, width, y, x, c)
    {
      ghost var g := Contents(cells);
      cells[y][x] := c;
      SetCells(g, height, width, y, x, c);
      SameGrid(Contents(cells), SetCell(g, height, width, y, x, c), height, width);
    }

    /** The alternate rows kept from the last session, or blank ones if those are to be
        cleared or no longer fit. */
    method AltRows(clear: bool) returns (rows: Store)
      requires Valid() && !inAlt
      ensures Shaped(rows, height, width) && Distinct(rows) && OwnRows(stash, rows)
      ensures Contents(rows) == AltStart(Hidden(), height, width, clear)
    {
      if clear || |stash| != height || stash[0].Length != width {
        rows := BlankRows(height, width);
      } else {
        rows := stash;
      }
    }

    /** Show some rows and keep others behind. */
    method Install(live: Store, flags: seq<bool>, alt: bool, behind: Store, behindFlags: seq<bool>)
      requires height >= 1 && width >= 1 && Shaped(live, height, width) && |flags| == height && Distinct(live)
      requires Distinct(behind) && forall j: nat, k: nat :: j < |live| && k < |behind| ==> live[j] != behind[k]
      requires behind == [] || Shaped(behind, |behind|, behind[0].Length)
      modifies this
      ensures Valid() && height == old(height) && width == old(width)
      ensures cells == live && wrapped == flags && inAlt == alt && Behind() == behind && savedWrapped == behindFlags
      ensures Owned() == (set r | r in live) + Arrays(behind)
    {
      cells, wrapped, inAlt, savedWrapped := live, flags, alt, behindFlags;
      saved, stash := if alt then behind else [], if alt then [] else behind;
      repr := set r | r in live;
    }

    /** The main rows are copied aside and the alternate rows take their place. */
    method EnterAlt(clear: bool)
      requires Valid() && !inAlt
      modifies this
      ensures Valid() && inAlt && height == old(height) && width == old(width) && fresh(Owned() - old(Owned()))
      ensures Hidden() == old(Contents(cells)) && savedWrapped == old(wrapped)
      ensures Contents(cells) == AltStart(old(Hidden()), height, width, clear)
      ensures wrapped == ClearFlags(height)
    {
      ArraysOf(stash);
      var rows := AltRows(clear);
      ghost var start := Contents(rows);
      var kept := CopyRows(cells, width);
      ArraysOf(kept);
      Install(rows, ClearFlags(height), true, kept, wrapped);
      assert Contents(rows) == start;
    }

    /** The saved rows come back, those that still fit as the very rows they were; the
        rows of the alternate screen are kept or dropped. */
    method ExitAlt(keep: bool)
      requires Valid() && inAlt
      modifies this
      ensures Valid() && !inAlt && height == old(height) && width == old(width) && fresh(Owned() - old(Owned()))
      ensures Contents(cells) == Refit(old(Hidden()), height, width, 0)
      ensures wrapped == RefitFlags(old(savedWrapped), height, 0)
      ensures Hidden() == if keep then old(Contents(cells)) else []
    {
      ArraysOf(saved);
      var back := RefitRows(saved, height, width, 0, true);
      assert forall j: nat :: j < |back| ==> back[j] !in repr;
      assert forall j: nat, k: nat :: j < |back| && k < |cells| ==> back[j] != cells[k];
      var flags := RefitFlags(savedWrapped, height, 0);
      ArraysOf(cells);
      Install(back, flags, false, if keep then cells else [], []);
    }

    /** Live rows at the new size, and saved rows copied to it unless they have it already. */
    method Resize(rows: nat, cols: nat)
      requires Valid() && rows >= 1 && cols >= 1
      modifies this
      ensures Valid() && height == rows && width == cols && inAlt == old(inAlt) && savedWrapped == old(savedWrapped)
      ensures fresh(Owned() - old(Owned()))
      ensures Contents(cells) == Refit(old(Contents(cells)), rows, cols, Down(old(height), rows, inAlt))
      ensures wrapped == RefitFlags(old(wrapped), rows, Down(old(height), rows, inAlt))
      ensures Hidden() == if inAlt then FitSaved(old(Hidden()), rows, cols) else old(Hidden())
    {
      ResizeLive(rows, cols);
      if inAlt && (|saved| != rows || saved[0].Length != cols) {
        ResizeSaved(rows, cols);
      }
    }

    method ResizeLive(rows: nat, cols: nat)
      requires Valid() && rows >= 1 && cols >= 1
      modifies this`height, this`width, this`cells, this`wrapped, this`repr
      ensures Valid() && height == rows && width == cols && fresh(repr - old(repr))
      ensures Contents(cells) == Refit(old(Contents(cells)), rows, cols, Down(old(height), rows, inAlt))
      ensures wrapped == RefitFlags(old(wrapped), rows, Down(old(height), rows, inAlt))
    {
      var down := Down(height, rows, inAlt);
      cells := RefitRows(cells, rows, cols, down, true);
      wrapped := RefitFlags(wrapped, rows, down);
      height, width := rows, cols;
      repr := set r | r in cells;
    }

    method ResizeSaved(rows: nat, cols: nat)
      requires Valid() && inAlt && rows >= 1
      modifies this`saved
      ensures Valid() && Hidden() == Refit(old(Hidden()), rows, cols, 0) && fresh(Arrays(saved))
    {
      saved := RefitRows(saved, rows, cols, 0, false);
      ArraysOf(saved);
    }
  }
}
