/** What inserting, deleting, scrolling, repeating and rectangles do to the cells of the
    screen, position by position, said of the control sequences that ask for them. */
module VtEditLaws {
  import opened Prelude
  import opened Sgr
  import opened VtCells
  import opened VtScreen
  import opened VtStream
  import opened VtLaws
  import I = VtInvariant

  /** The columns lines and characters move between. */
  function LeftColumn(s: Screen): int { if s.margins.lr then s.margins.left else 0 }

  function RightColumn(s: Screen): int { if s.margins.lr then s.margins.right else s.w - 1 }

  predicate BetweenMargins(s: Screen) { LeftColumn(s) <= s.cur.x <= RightColumn(s) }

  predicate InScrollRegion(s: Screen) { s.margins.top <= s.cur.y <= s.margins.bottom && BetweenMargins(s) }

  /** The cell `dy` rows down and `dx` columns right of a position, if it lies in the box;
      else what the pen leaves behind. */
  function From(s: Screen, b: Box, y: int, x: int, dy: int, dx: int): Cell {
    if !Inside(b, y, x) then Seen(s, y, x)
    else if Inside(b, y + dy, x + dx) then Seen(s, y + dy, x + dx)
    else Vacant(s)
  }

  lemma LeftCells(s: Screen, b: Box, n: int, y: nat, x: nat)
    requires I.Safe(s) && y < s.h && x < s.w
    ensures At(MoveLeft(s.cells, s.h, s.w, b, n, PenBlank(s)), y, x) == From(s, b, y, x, 0, n)
  {
    MovedLeftCells(s.cells, s.h, s.w, b, n, PenBlank(s));
  }

  lemma UpCells(s: Screen, b: Box, n: int, y: nat, x: nat)
    requires I.Safe(s) && y < s.h && x < s.w
    ensures At(MoveUp(s.cells, s.h, s.w, b, n, PenBlank(s)), y, x) == From(s, b, y, x, n, 0)
  {
    MovedUpCells(s.cells, s.h, s.w, b, n, PenBlank(s));
  }

  // --- characters --------------------------------------------------------------------------

  /** From the cursor to the right margin. */
  function RestOfRow(s: Screen): Box { Box(s.cur.y, s.cur.x, s.cur.y, RightColumn(s)) }

  lemma CharsMove(s: Screen, n: nat, y: nat, x: nat)
    requires I.Safe(s) && y < s.h && x < s.w && BetweenMargins(s)
    ensures Seen(InsertChars(s, n), y, x) == From(s, RestOfRow(s), y, x, 0, 0 - n)
    ensures Seen(DeleteChars(s, n), y, x) == From(s, RestOfRow(s), y, x, 0, n)
  {
    LeftCells(s, RestOfRow(s), 0 - n, y, x);
    LeftCells(s, RestOfRow(s), n, y, x);
  }

  /** ICH: the rest of the row moves right, blanks open at the cursor, and what passes the
      margin is lost. */
  lemma InsertCharsCells(s: Screen, env: Env, n: nat, y: nat, x: nat)
    requires I.Safe(s) && y < s.h && x < s.w && BetweenMargins(s) && n >= 1
    ensures
      var t := Csi(s, env, [n], '@');
      OnlyCells(s, t) && t.cur == s.cur && Seen(t, y, x) == From(s, RestOfRow(s), y, x, 0, 0 - n)
  {
    CharsMove(s, n, y, x);
  }

  /** DCH: the rest of the row closes up from the right. */
  lemma DeleteCharsCells(s: Screen, env: Env, n: nat, y: nat, x: nat)
    requires I.Safe(s) && y < s.h && x < s.w && BetweenMargins(s) && n >= 1
    ensures
      var t := Csi(s, env, [n], 'P');
      OnlyCells(s, t) && t.cur == s.cur && Seen(t, y, x) == From(s, RestOfRow(s), y, x, 0, n)
  {
    CharsMove(s, n, y, x);
  }

  /** Neither does anything with the cursor outside the side margins. */
  lemma CharsNeedMargins(s: Screen, env: Env, n: nat)
    requires !BetweenMargins(s)
    ensures Csi(s, env, [n], '@') == s && Csi(s, env, [n], 'P') == s
  {}

  // --- lines -------------------------------------------------------------------------------

  /** From the cursor's row to the bottom of the region. */
  function RestOfRegion(s: Screen): Box { Box(s.cur.y, LeftColumn(s), s.margins.bottom, RightColumn(s)) }

  predicate AtLeft(s: Screen, t: Screen) { t.cur == Cursor(s.cur.y, LeftColumn(s), false) }

  lemma LinesMove(s: Screen, n: nat, y: nat, x: nat)
    requires I.Safe(s) && y < s.h && x < s.w && InScrollRegion(s)
    ensures Seen(InsertLines(s, n), y, x) == From(s, RestOfRegion(s), y, x, 0 - n, 0) && AtLeft(s, InsertLines(s, n))
    ensures Seen(DeleteLines(s, n), y, x) == From(s, RestOfRegion(s), y, x, n, 0) && AtLeft(s, DeleteLines(s, n))
  {
    UpCells(s, RestOfRegion(s), 0 - n, y, x);
    UpCells(s, RestOfRegion(s), n, y, x);
  }

  /** IL: the cursor's row and those below it move down, to the region's bottom; the cursor
      goes to the left margin. */
  lemma InsertLinesCells(s: Screen, env: Env, n: nat, y: nat, x: nat)
    requires I.Safe(s) && y < s.h && x < s.w && InScrollRegion(s) && n >= 1
    ensures
      var t := Csi(s, env, [n], 'L');
      Seen(t, y, x) == From(s, RestOfRegion(s), y, x, 0 - n, 0) && AtLeft(s, t)
  {
    LinesMove(s, n, y, x);
  }

  /** DL: they move up over it. */
  lemma DeleteLinesCells(s: Screen, env: Env, n: nat, y: nat, x: nat)
    requires I.Safe(s) && y < s.h && x < s.w && InScrollRegion(s) && n >= 1
    ensures
      var t := Csi(s, env, [n], 'M');
      Seen(t, y, x) == From(s, RestOfRegion(s), y, x, n, 0) && AtLeft(s, t)
  {
    LinesMove(s, n, y, x);
  }

  lemma LinesNeedRegion(s: Screen, env: Env, n: nat)
    requires !InScrollRegion(s)
    ensures Csi(s, env, [n], 'L') == s && Csi(s, env, [n], 'M') == s
  {}

  /** A row that moves takes its wrap flag along; the flags stay where a narrower box moves. */
  lemma FlagsFollowRows(s: Screen, n: nat, y: nat)
    requires I.Safe(s) && InScrollRegion(s) && y < s.h
    ensures
      var whole := LeftColumn(s) == 0 && RightColumn(s) == s.w - 1;
      var moves := whole && s.cur.y <= y <= s.margins.bottom;
      && FlagAt(DeleteLines(s, n).wrapped, y) == (if moves then y + n <= s.margins.bottom && FlagAt(s.wrapped, y + n) else FlagAt(s.wrapped, y))
      && FlagAt(InsertLines(s, n).wrapped, y) == (if moves then s.cur.y <= y - n && FlagAt(s.wrapped, y - n) else FlagAt(s.wrapped, y))
  {
    FlagMoved(s.wrapped, s.cur.y, s.margins.bottom, n, y);
    FlagMoved(s.wrapped, s.cur.y, s.margins.bottom, 0 - n, y);
  }

  // --- scrolling ---------------------------------------------------------------------------

  function WholeRegion(s: Screen): Box { Box(s.margins.top, LeftColumn(s), s.margins.bottom, RightColumn(s)) }

  predicate SameRegion(s: Screen, t: Screen) {
    t.h == s.h && t.w == s.w && t.margins == s.margins && t.pen == s.pen && t.cur == s.cur && t.alt == s.alt
  }

  lemma UpOnceCells(s: Screen, y: nat, x: nat)
    requires I.Safe(s) && y < s.h && x < s.w
    ensures SameRegion(s, ScrollUpOnce(s))
    ensures Seen(ScrollUpOnce(s), y, x) == From(s, WholeRegion(s), y, x, 1, 0)
  {
    UpCells(s, WholeRegion(s), 1, y, x);
  }

  lemma DownOnceCells(s: Screen, y: nat, x: nat)
    requires I.Safe(s) && y < s.h && x < s.w
    ensures SameRegion(s, ScrollDownOnce(s))
    ensures Seen(ScrollDownOnce(s), y, x) == From(s, WholeRegion(s), y, x, -1, 0)
  {
    UpCells(s, WholeRegion(s), -1, y, x);
  }

  /** One row and then the others is all of them at once. */
  lemma OneThenRest(s: Screen, u: Screen, one: int, n: int, y: int, x: int)
    requires SameRegion(s, u) && one * n >= 0 && (one == 1 || one == -1)
    requires Seen(u, y, x) == From(s, WholeRegion(s), y, x, one, 0)
    requires Inside(WholeRegion(s), y + n, x) ==> Seen(u, y + n, x) == From(s, WholeRegion(s), y + n, x, one, 0)
    ensures From(u, WholeRegion(u), y, x, n, 0) == From(s, WholeRegion(s), y, x, n + one, 0)
  {}

  predicate OneRow(s: Screen, u: Screen, one: int, y: nat, x: nat) {
    I.Safe(u) && SameRegion(s, u) && Seen(u, y, x) == From(s, WholeRegion(s), y, x, one, 0)
  }

  /** A function that moves the region's rows by one, and what it comes to when repeated. */
  ghost predicate MovesRows(f: Screen -> Screen, one: int) {
    forall s: Screen, y: nat, x: nat :: I.Safe(s) && y < s.h && x < s.w ==> OneRow(s, f(s), one, y, x)
  }

  function Times(f: Screen -> Screen, s: Screen, n: nat): Screen
    decreases n
  {
    if n == 0 then s else Times(f, f(s), n - 1)
  }

  lemma RegionAgain(s: Screen, u: Screen, t: Screen)
    requires SameRegion(s, u) && SameRegion(u, t)
    ensures SameRegion(s, t)
  {}

  lemma {:induction false} TimesCells(f: Screen -> Screen, one: int, s: Screen, n: nat, y: nat, x: nat)
    requires MovesRows(f, one) && (one == 1 || one == -1) && I.Safe(s) && y < s.h && x < s.w
    ensures SameRegion(s, Times(f, s, n))
    ensures Seen(Times(f, s, n), y, x) == From(s, WholeRegion(s), y, x, one * n, 0)
    decreases n
  {
    if n > 0 {
      var u := f(s);
      assert OneRow(s, u, one, y, x);
      TimesCells(f, one, u, n - 1, y, x);
      RegionAgain(s, u, Times(f, s, n));
      var rest := one * (n - 1);
      if Inside(WholeRegion(s), y + rest, x) { assert OneRow(s, u, one, y + rest, x); }
      OneThenRest(s, u, one, rest, y, x);
    }
  }

  lemma {:induction false} UpIsTimes(f: Screen -> Screen, s: Screen, n: nat)
    requires forall u :: f(u) == ScrollUpOnce(u)
    ensures ScrollUpBy(s, n) == Times(f, s, n)
    decreases n
  {
    if n > 0 { UpIsTimes(f, f(s), n - 1); }
  }

  lemma {:induction false} DownIsTimes(f: Screen -> Screen, s: Screen, n: nat)
    requires forall u :: f(u) == ScrollDownOnce(u)
    ensures ScrollDownBy(s, n) == Times(f, s, n)
    decreases n
  {
    if n > 0 { DownIsTimes(f, f(s), n - 1); }
  }

  lemma UpByCells(s: Screen, n: nat, y: nat, x: nat)
    requires I.Safe(s) && y < s.h && x < s.w
    ensures SameRegion(s, ScrollUpBy(s, n))
    ensures Seen(ScrollUpBy(s, n), y, x) == From(s, WholeRegion(s), y, x, n, 0)
  {
    var f := (u: Screen) => ScrollUpOnce(u);
    assert MovesRows(f, 1) by { UpMovesRows(f); }
    TimesCells(f, 1, s, n, y, x);
    UpIsTimes(f, s, n);
  }

  lemma DownByCells(s: Screen, n: nat, y: nat, x: nat)
    requires I.Safe(s) && y < s.h && x < s.w
    ensures SameRegion(s, ScrollDownBy(s, n))
    ensures Seen(ScrollDownBy(s, n), y, x) == From(s, WholeRegion(s), y, x, 0 - n, 0)
  {
    var f := (u: Screen) => ScrollDownOnce(u);
    assert MovesRows(f, -1) by { DownMovesRows(f); }
    TimesCells(f, -1, s, n, y, x);
    DownIsTimes(f, s, n);
  }

  lemma UpOneRow(s: Screen, y: nat, x: nat)
    requires I.Safe(s) && y < s.h && x < s.w
    ensures OneRow(s, ScrollUpOnce(s), 1, y, x)
  {
    I.ScrollUpKeeps(s, 0);
    UpOnceCells(s, y, x);
  }

  lemma DownOneRow(s: Screen, y: nat, x: nat)
    requires I.Safe(s) && y < s.h && x < s.w
    ensures OneRow(s, ScrollDownOnce(s), -1, y, x)
  {
    I.ScrollDownKeeps(s, 0);
    DownOnceCells(s, y, x);
  }

  lemma UpMovesRows(f: Screen -> Screen)
    requires forall u :: f(u) == ScrollUpOnce(u)
    ensures MovesRows(f, 1)
  {
    forall s: Screen, y: nat, x: nat | I.Safe(s) && y < s.h && x < s.w ensures OneRow(s, f(s), 1, y, x) {
      UpOneRow(s, y, x);
    }
  }

  lemma DownMovesRows(f: Screen -> Screen)
    requires forall u :: f(u) == ScrollDownOnce(u)
    ensures MovesRows(f, -1)
  {
    forall s: Screen, y: nat, x: nat | I.Safe(s) && y < s.h && x < s.w ensures OneRow(s, f(s), -1, y, x) {
      DownOneRow(s, y, x);
    }
  }

  lemma ScrollUpSequence(s: Screen, env: Env, n: nat)
    requires n >= 1
    ensures Csi(s, env, [n], 'S') == ScrollUpBy(s, Min(n, RegionHeight(s)))
  {}

  lemma ScrollDownSequence(s: Screen, env: Env, n: nat)
    requires n >= 1
    ensures Csi(s, env, [n], 'T') == ScrollDownBy(s, Min(n, RegionHeight(s)))
  {}

  /** SU: the region's rows move up, as many as asked; the cursor stays. */
  lemma ScrollUpCells(s: Screen, env: Env, n: nat, y: nat, x: nat)
    requires I.Safe(s) && y < s.h && x < s.w && n >= 1
    ensures
      var t := Csi(s, env, [n], 'S');
      SameRegion(s, t) && Seen(t, y, x) == From(s, WholeRegion(s), y, x, n, 0)
  {
    ScrollUpSequence(s, env, n);
    UpByCells(s, Min(n, RegionHeight(s)), y, x);
  }

  /** SD: they move down. */
  lemma ScrollDownCells(s: Screen, env: Env, n: nat, y: nat, x: nat)
    requires I.Safe(s) && y < s.h && x < s.w && n >= 1
    ensures
      var t := Csi(s, env, [n], 'T');
      SameRegion(s, t) && Seen(t, y, x) == From(s, WholeRegion(s), y, x, 0 - n, 0)
  {
    ScrollDownSequence(s, env, n);
    DownByCells(s, Min(n, RegionHeight(s)), y, x);
  }

  /** SD has a second spelling; with the marker of another sequence it is not SD. */
  lemma ScrollDownToo(s: Screen, env: Env, n: nat)
    ensures Csi(s, env, [n], '^') == Csi(s, env, [n], 'T')
  {}

  lemma MarkedIsNotScroll(s: Screen, env: Env, n: nat)
    ensures DispatchCsi(s, env, [[n]], [], '>' as int, 'T' as int) == s
  {}

  /** Rows go to the history only from the top of the whole screen, each with its text and
      whether the next one continued it, oldest first. */
  predicate WholeScreenScrolls(s: Screen) {
    s.margins.top == 0 && s.margins.bottom == s.h - 1 && LeftColumn(s) == 0 && RightColumn(s) == s.w - 1
  }

  predicate DrainedFrom(s: Screen, t: Screen, n: nat)
    requires n <= |s.cells|
  {
    var was, now := s.history.drained, t.history.drained;
    && |now| == |was| + n && now[..|was|] == was
    && forall k: nat :: k < n ==> now[|was| + k] == Drained(s.cells[k], FlagAt(s.wrapped, k + 1))
  }

  lemma OnceOff(s: Screen)
    requires I.Safe(s)
    ensures WholeScreenScrolls(ScrollUpOnce(s)) == WholeScreenScrolls(s) && ScrollUpOnce(s).h == s.h
    ensures ScrollUpOnce(s).history.drained == s.history.drained +
              if WholeScreenScrolls(s) then [Drained(s.cells[0], FlagAt(s.wrapped, 1))] else []
  {}

  predicate NothingOff(s: Screen, u: Screen) {
    I.Safe(u) && !WholeScreenScrolls(u) && u.history.drained == s.history.drained
  }

  ghost predicate SendsNothing(f: Screen -> Screen) {
    forall s: Screen :: I.Safe(s) && !WholeScreenScrolls(s) ==> NothingOff(s, f(s))
  }

  lemma {:induction false} TimesSendsNothing(f: Screen -> Screen, s: Screen, n: nat)
    requires SendsNothing(f) && I.Safe(s) && !WholeScreenScrolls(s)
    ensures Times(f, s, n).history.drained == s.history.drained
    decreases n
  {
    if n > 0 {
      assert NothingOff(s, f(s));
      TimesSendsNothing(f, f(s), n - 1);
    }
  }

  lemma OnceSendsNothing(s: Screen)
    requires I.Safe(s) && !WholeScreenScrolls(s)
    ensures NothingOff(s, ScrollUpOnce(s))
  {
    OnceOff(s);
    I.ScrollUpKeeps(s, 0);
  }

  lemma NoneScrolledOff(s: Screen, n: nat)
    requires I.Safe(s) && !WholeScreenScrolls(s)
    ensures ScrollUpBy(s, n).history.drained == s.history.drained
  {
    var f := (u: Screen) => ScrollUpOnce(u);
    forall u: Screen | I.Safe(u) && !WholeScreenScrolls(u) ensures NothingOff(u, f(u)) { OnceSendsNothing(u); }
    TimesSendsNothing(f, s, n);
    UpIsTimes(f, s, n);
  }

  lemma OneThenOff(s: Screen, u: Screen, t: Screen, n: nat)
    requires 0 < n <= |s.cells| && |u.cells| == |s.cells|
    requires u.history.drained == s.history.drained + [Drained(s.cells[0], FlagAt(s.wrapped, 1))]
    requires DrainedFrom(u, t, n - 1)
    requires forall k: nat :: k < n - 1 ==> u.cells[k] == s.cells[k + 1] && FlagAt(u.wrapped, k + 1) == FlagAt(s.wrapped, k + 2)
    ensures DrainedFrom(s, t, n)
  {
    var was, now := s.history.drained, t.history.drained;
    assert now[|was|] == u.history.drained[|was|];
    assert now[..|was|] == u.history.drained[..|was|] == was;
    forall k: nat | 0 < k < n ensures now[|was| + k] == Drained(s.cells[k], FlagAt(s.wrapped, k + 1)) {
      assert now[|u.history.drained| + (k - 1)] == Drained(u.cells[k - 1], FlagAt(u.wrapped, k));
    }
  }

  lemma {:induction false} ScrolledOff(s: Screen, n: nat)
    requires I.Safe(s) && WholeScreenScrolls(s) && n <= s.h
    ensures DrainedFrom(s, ScrollUpBy(s, n), n)
    decreases n
  {
    if n > 0 {
      var u := ScrollUpOnce(s);
      OnceOff(s);
      I.ScrollUpKeeps(s, 0);
      ScrolledOff(u, n - 1);
      forall k: nat | k < n - 1 ensures u.cells[k] == s.cells[k + 1] && FlagAt(u.wrapped, k + 1) == FlagAt(s.wrapped, k + 2) {
        RowMovesUp(s, k);
      }
      OneThenOff(s, u, ScrollUpBy(s, n), n);
    }
  }

  /** SU on the whole screen sends exactly the rows that leave it to the history, oldest
      first, each with whether the row below continued it; on any smaller box, none. */
  lemma ScrollUpDrains(s: Screen, env: Env, n: nat)
    requires I.Safe(s) && n >= 1
    ensures
      var t := Csi(s, env, [n], 'S');
      if WholeScreenScrolls(s) then DrainedFrom(s, t, Min(n, s.h)) else t.history.drained == s.history.drained
  {
    ScrollUpSequence(s, env, n);
    if WholeScreenScrolls(s) { ScrolledOff(s, Min(n, s.h)); } else { NoneScrolledOff(s, Min(n, RegionHeight(s))); }
  }

  lemma RowMovesUp(s: Screen, k: nat)
    requires I.Safe(s) && WholeScreenScrolls(s) && k < s.h - 1
    ensures ScrollUpOnce(s).cells[k] == s.cells[k + 1]
    ensures FlagAt(ScrollUpOnce(s).wrapped, k + 1) == FlagAt(s.wrapped, k + 2)
  {
    var t := ScrollUpOnce(s);
    I.ScrollUpKeeps(s, 0);
    forall x: nat | x < s.w ensures t.cells[k][x] == s.cells[k + 1][x] { UpOnceCells(s, k, x); }
    assert |t.cells[k]| == s.w == |s.cells[k + 1]|;
    FlagMoved(s.wrapped, 0, s.margins.bottom, 1, k + 1);
  }

  // --- columns and indexing ----------------------------------------------------------------

  /** A sequence with one intermediate byte. */
  function CsiWith(s: Screen, env: Env, ps: seq<nat>, i: Final, f: Final): Screen {
    DispatchCsi(s, env, Groups1(ps), [i as int], 0, f as int)
  }

  /** The region's rows from the cursor's column to the right margin. */
  function RestOfColumns(s: Screen): Box { Box(s.margins.top, s.cur.x, s.margins.bottom, RightColumn(s)) }

  /** DECIC and DECDC: what ICH and DCH do to one row, over all the region's rows. */
  lemma InsertColumnsCells(s: Screen, env: Env, n: nat, y: nat, x: nat)
    requires I.Safe(s) && y < s.h && x < s.w && n >= 1
    ensures
      var t := CsiWith(s, env, [n], '\'', '}');
      if InScrollRegion(s) then OnlyCells(s, t) && t.cur == s.cur && Seen(t, y, x) == From(s, RestOfColumns(s), y, x, 0, 0 - n)
      else t == s
  {
    LeftCells(s, RestOfColumns(s), 0 - n, y, x);
  }

  lemma DeleteColumnsCells(s: Screen, env: Env, n: nat, y: nat, x: nat)
    requires I.Safe(s) && y < s.h && x < s.w && n >= 1
    ensures
      var t := CsiWith(s, env, [n], '\'', '~');
      if InScrollRegion(s) then OnlyCells(s, t) && t.cur == s.cur && Seen(t, y, x) == From(s, RestOfColumns(s), y, x, 0, n)
      else t == s
  {
    LeftCells(s, RestOfColumns(s), n, y, x);
  }

  /** SL and SR: the region's rows sideways, the side margins ignored. */
  lemma ShiftLeftCells(s: Screen, env: Env, n: nat, y: nat, x: nat)
    requires I.Safe(s) && y < s.h && x < s.w && n >= 1
    ensures
      var t := CsiWith(s, env, [n], ' ', '@');
      && OnlyCells(s, t) && t.cur == s.cur
      && Seen(t, y, x) == From(s, Box(s.margins.top, 0, s.margins.bottom, s.w - 1), y, x, 0, n)
  {
    LeftCells(s, Box(s.margins.top, 0, s.margins.bottom, s.w - 1), n, y, x);
  }

  lemma ShiftRightCells(s: Screen, env: Env, n: nat, y: nat, x: nat)
    requires I.Safe(s) && y < s.h && x < s.w && n >= 1
    ensures
      var t := CsiWith(s, env, [n], ' ', 'A');
      && OnlyCells(s, Settled(t)) && t.cur == Settled(s).cur
      && Seen(t, y, x) == From(s, Box(s.margins.top, 0, s.margins.bottom, s.w - 1), y, x, 0, 0 - n)
  {
    LeftCells(s, Box(s.margins.top, 0, s.margins.bottom, s.w - 1), 0 - n, y, x);
  }

  function Esc(s: Screen, f: Final): Screen { DispatchEsc(s, [], f as int) }

  /** DECBI and DECFI: a column sideways, and at the margin the region's contents instead. */
  lemma BackIndexMoves(s: Screen, y: nat, x: nat)
    requires I.Safe(s) && y < s.h && x < s.w
    ensures
      var t := Esc(s, '6');
      if s.cur.x == LeftColumn(s) then t.cur == Settled(s).cur && Seen(t, y, x) == From(s, WholeRegion(s), y, x, 0, -1)
      else t == Settled(s).(cur := Cursor(s.cur.y, Max(s.cur.x - 1, 0), false))
  {
    LeftCells(s, WholeRegion(s), -1, y, x);
  }

  lemma ForwardIndexMoves(s: Screen, y: nat, x: nat)
    requires I.Safe(s) && y < s.h && x < s.w
    ensures
      var t := Esc(s, '9');
      if s.cur.x == RightColumn(s) then t.cur == Settled(s).cur && Seen(t, y, x) == From(s, WholeRegion(s), y, x, 0, 1)
      else t == Settled(s).(cur := Cursor(s.cur.y, Min(s.cur.x + 1, s.w - 1), false))
  {
    LeftCells(s, WholeRegion(s), 1, y, x);
  }

  /** IND: down a row; on the bottom margin, between the side margins, the region scrolls up
      instead. */
  lemma IndexMoves(s: Screen, y: nat, x: nat)
    requires I.Safe(s) && y < s.h && x < s.w
    ensures
      var t := Esc(s, 'D');
      if s.cur.y == s.margins.bottom && BetweenMargins(s) then
        t.cur == Settled(s).cur && Seen(t, y, x) == From(s, WholeRegion(s), y, x, 1, 0)
      else
        t == Settled(s).(cur := Cursor(if s.cur.y == s.margins.bottom || s.cur.y == s.h - 1 then s.cur.y else s.cur.y + 1, s.cur.x, false))
  {
    I.SameFrameKeeps(s, Settled(s));
    if s.cur.y == s.margins.bottom { UpOnceCells(Settled(s), y, x); }
  }

  /** RI: up a row; on the top margin the region scrolls down. */
  lemma ReverseIndexMoves(s: Screen, y: nat, x: nat)
    requires I.Safe(s) && y < s.h && x < s.w
    ensures
      var t := Esc(s, 'M');
      if s.cur.y == s.margins.top && BetweenMargins(s) then
        t.cur == Settled(s).cur && Seen(t, y, x) == From(s, WholeRegion(s), y, x, -1, 0)
      else
        t == Settled(s).(cur := Cursor(if s.cur.y == s.margins.top || s.cur.y == 0 then s.cur.y else s.cur.y - 1, s.cur.x, false))
  {
    I.SameFrameKeeps(s, Settled(s));
    if s.cur.y == s.margins.top { DownOnceCells(Settled(s), y, x); }
  }

  /** A line feed, a vertical tab and a form feed index, from column 0 in new-line mode; NEL
      indexes and returns. */
  lemma LineFeedIndexes(s: Screen, b: Byte)
    requires I.Safe(s) && 0x0A <= b <= 0x0C
    ensures Execute(s, b) == Esc(if s.modes.newLine then s.(cur := s.cur.(x := 0)) else s, 'D')
    ensures Execute(Esc(s, 'E'), 0x0D) == Execute(Esc(s, 'D'), 0x0D)
  {}

  // --- rectangles --------------------------------------------------------------------------

  /** The rectangle a sequence names by its corners, counted from 1 at the page's corner:
      the region's in origin mode. A corner left out is the page's own. */
  function PageOf(s: Screen): Box {
    if s.modes.origin then WholeRegion(s) else Box(0, 0, s.h - 1, s.w - 1)
  }

  /** Counted from 1 at the page's corner: a corner left out is the page's own, and a first
      corner past the page is its last cell. */
  predicate Named(s: Screen, top: nat, left: nat, bottom: nat, right: nat, y: int, x: int) {
    var p := PageOf(s);
    var row, col := y - p.top + 1, x - p.left + 1;
    && Inside(p, y, x)
    && Min(Max(top, 1), p.bottom - p.top + 1) <= row && (bottom >= 1 ==> row <= bottom)
    && Min(Max(left, 1), p.right - p.left + 1) <= col && (right >= 1 ==> col <= right)
  }

  lemma RectIsNamed(s: Screen, top: nat, left: nat, bottom: nat, right: nat, y: int, x: int)
    requires I.Safe(s)
    ensures Inside(RectBox(s, top, left, bottom, right), y, x) <==> Named(s, top, left, bottom, right, y, x)
  {}

  /** Exactly the named cells become blank, guarded or not; or all but the protected ones. */
  lemma EraseRectCells(s: Screen, t: nat, l: nat, b: nat, r: nat, selective: bool, y: nat, x: nat)
    requires I.Safe(s) && y < s.h && x < s.w
    ensures
      var u := EraseBox(s, RectBox(s, t, l, b, r), if selective then SpareDec else SpareNone);
      Seen(u, y, x) == if Named(s, t, l, b, r, y, x) && !(selective && Seen(s, y, x).decProtected) then Vacant(s) else Seen(s, y, x)
  {
    RectIsNamed(s, t, l, b, r, y, x);
    EraseBoxCells(s, RectBox(s, t, l, b, r), if selective then SpareDec else SpareNone, y, x);
  }

  /** They hold the character given, in the pen's style; a control is a space. */
  lemma FillRectCells(s: Screen, ch: nat, t: nat, l: nat, b: nat, r: nat, y: nat, x: nat)
    requires I.Safe(s) && y < s.h && x < s.w
    ensures Seen(FillRect(s, ch, RectBox(s, t, l, b, r)), y, x) ==
            if Named(s, t, l, b, r, y, x) then Cell(if ch < 0x20 then SPACE else ch, s.pen.style, [], s.pen.decProtected, false)
            else Seen(s, y, x)
  {
    RectIsNamed(s, t, l, b, r, y, x);
    ErasedCells(s.cells, s.h, s.w, RectBox(s, t, l, b, r), SpareNone,
                Cell(if ch < 0x20 then SPACE else ch, s.pen.style, [], s.pen.decProtected, false));
  }

  /** The first cell a rectangle names. */
  function CornerRow(s: Screen, top: nat): int { Min(Max(top, 1) - 1 + PageOf(s).top, PageOf(s).bottom) }

  function CornerCol(s: Screen, left: nat): int { Min(Max(left, 1) - 1 + PageOf(s).left, PageOf(s).right) }

  lemma RectCorner(s: Screen, top: nat, left: nat, bottom: nat, right: nat)
    requires I.Safe(s)
    ensures
      var b := RectBox(s, top, left, bottom, right);
      b.top == CornerRow(s, top) && b.left == CornerCol(s, left)
  {}

  lemma CopyBoxCells(s: Screen, b: Box, dt: nat, dl: nat, y: nat, x: nat)
    requires I.Safe(s) && y < s.h && x < s.w
    ensures
      var fromY, fromX := y - CornerRow(s, dt) + b.top, x - CornerCol(s, dl) + b.left;
      Seen(CopyRect(s, b, dt, dl), y, x) == if Inside(b, fromY, fromX) then Seen(s, fromY, fromX) else Seen(s, y, x)
  {
    RectCorner(s, dt, dl, 0, 0);
    CopiedCells(s.cells, s.h, s.w, b, CornerRow(s, dt), CornerCol(s, dl));
  }

  /** The cell at a distance from the destination's corner is what stood at that distance
      from the source's, if the rectangle reaches so far; all read before any is written. */
  lemma CopyRectCells(s: Screen, t: nat, l: nat, b: nat, r: nat, dt: nat, dl: nat, y: nat, x: nat)
    requires I.Safe(s) && y < s.h && x < s.w
    ensures
      var fromY := y - CornerRow(s, dt) + CornerRow(s, t);
      var fromX := x - CornerCol(s, dl) + CornerCol(s, l);
      Seen(CopyRect(s, RectBox(s, t, l, b, r), dt, dl), y, x) ==
        if Named(s, t, l, b, r, fromY, fromX) then Seen(s, fromY, fromX) else Seen(s, y, x)
  {
    RectCorner(s, t, l, b, r);
    CopyBoxCells(s, RectBox(s, t, l, b, r), dt, dl, y, x);
    RectIsNamed(s, t, l, b, r, y - CornerRow(s, dt) + CornerRow(s, t), x - CornerCol(s, dl) + CornerCol(s, l));
  }

  /** The sequences that ask for these. */
  lemma EraseRectSequence(s: Screen, env: Env, t: nat, l: nat, b: nat, r: nat)
    ensures CsiWith(s, env, [t, l, b, r], '$', 'z') == EraseBox(s, RectBox(s, t, l, b, r), SpareNone)
  {}

  lemma SelectiveEraseRectSequence(s: Screen, env: Env, t: nat, l: nat, b: nat, r: nat)
    ensures CsiWith(s, env, [t, l, b, r], '$', '{') == EraseBox(s, RectBox(s, t, l, b, r), SpareDec)
  {}

  lemma FillRectSequence(s: Screen, env: Env, ch: nat, t: nat, l: nat, b: nat, r: nat)
    ensures CsiWith(s, env, [ch, t, l, b, r], '$', 'x') == FillRect(s, ch, RectBox(s, t, l, b, r))
  {}

  lemma CopyRectSequence(s: Screen, env: Env, t: nat, l: nat, b: nat, r: nat, page: nat, dt: nat, dl: nat)
    ensures CsiWith(s, env, [t, l, b, r, page, dt, dl], '$', 'v') == CopyRect(s, RectBox(s, t, l, b, r), dt, dl)
  {}

  /** DECALN: the whole screen is E, margins and cursor at their start. */
  lemma AlignmentCells(s: Screen, y: nat, x: nat)
    requires I.Safe(s) && y < s.h && x < s.w
    ensures
      var t := DispatchEsc(s, ['#' as int], '8' as int);
      && Seen(t, y, x) == Cell('E' as int, PLAIN, [], false, false)
      && t == s.(cells := t.cells, cur := Cursor(0, 0, false), margins := Margins(0, s.h - 1, 0, s.w - 1, false))
  {
    ErasedCells(s.cells, s.h, s.w, WholeScreen(s), SpareNone, Cell('E' as int, PLAIN, [], false, false));
  }

  // --- repeating ---------------------------------------------------------------------------

  lemma {:induction false} RepeatKeepsPen(s: Screen, rune: nat, width: nat, n: nat)
    ensures Repeat(s, rune, width, n).pen == s.pen
    decreases n
  {
    if n > 0 {
      PutKeepsPen(s, rune, width);
      RepeatKeepsPen(PutGlyph(s, rune, width), rune, width, n - 1);
    }
  }

  lemma WrapKeepsPen(s: Screen)
    ensures WrapLine(s).pen == s.pen
  {
    assert NextLine(s).pen == s.pen;
  }

  lemma WrappedKeepsPen(s: Screen, width: nat)
    ensures PutWrapped(s, width).pen == s.pen
  {
    WrapKeepsPen(s);
    var t := WrapIfPending(s);
    WrapKeepsPen(VtScreen.Write(t, t.cur.x, Cell(SPACE, t.pen.style, [], false, false)));
  }

  lemma InkKeepsPen(s: Screen, rune: nat, width: nat)
    ensures
      var t := Advance(Ink(s, rune, width));
      t.pen == s.pen && t.lastRune == rune && t.lastStyle == s.pen.style
  {}

  lemma PutKeepsPen(s: Screen, rune: nat, width: nat)
    ensures PutGlyph(s, rune, width).pen == s.pen
    ensures width != 0 ==> PutGlyph(s, rune, width).lastRune == rune && PutGlyph(s, rune, width).lastStyle == s.pen.style
  {
    WrappedKeepsPen(s, width);
    var t := PutWrapped(s, width);
    InkKeepsPen(Opened(t, width), rune, width);
  }

  lemma RepeatSequence(s: Screen, env: Env, n: nat)
    requires n >= 1
    ensures Csi(s, env, [n], 'b') == RepeatLast(s, Width(env, s.lastRune), n)
  {
    assert Csi(s, env, [n], 'b') == CsiEdit(s, env, Groups1([n]), 0, 'b');
  }

  /** REP after a printed glyph prints it as often again. */
  lemma RepeatsLastGlyph(s: Screen, env: Env, rune: nat, n: nat)
    requires rune != 0 && Width(env, rune) != 0 && n >= 1
    ensures
      var t := PutGlyph(s, rune, Width(env, rune));
      Csi(t, env, [n], 'b') == Repeat(t, rune, Width(env, rune), n)
  {
    PutKeepsPen(s, rune, Width(env, rune));
    var t := PutGlyph(s, rune, Width(env, rune));
    RepeatSequence(t, env, n);
    assert t.(pen := t.pen.(style := t.lastStyle)) == t;
    RepeatKeepsPen(t, rune, Width(env, rune), n);
  }

  /** Whatever style the pen has taken since, REP prints in the style the rune was printed
      in, and leaves the pen its own. */
  lemma RepeatsInItsStyle(s: Screen, env: Env, n: nat)
    requires I.Safe(s) && s.lastRune != 0 && Width(env, s.lastRune) == 1 && PrintsHere(s, 1) && !s.modes.insert && n >= 1
    ensures Csi(s, env, [n], 'b').pen == s.pen
    ensures Seen(Csi(s, env, [1], 'b'), s.cur.y, s.cur.x) ==
            Cell(s.lastRune, s.lastStyle, s.pen.link, s.pen.decProtected, s.pen.isoProtected)
  {
    var u := s.(pen := s.pen.(style := s.lastStyle));
    RepeatSequence(s, env, n);
    RepeatSequence(s, env, 1);
    RepeatKeepsPen(u, s.lastRune, 1, n);
    I.SameFrameKeeps(s, u);
    GlyphCells(u, s.lastRune, 1, s.cur.y, s.cur.x);
    assert Repeat(PutGlyph(u, s.lastRune, 1), s.lastRune, 1, 0) == PutGlyph(u, s.lastRune, 1);
  }

  /** A wrapped row continues the one above it exactly where rows wrap over the whole width. */
  lemma WrapMarksContinuation(s: Screen)
    requires I.Safe(s)
    ensures
      var t := WrapLine(s);
      if LeftColumn(s) == 0 && RightColumn(s) == s.w - 1 then FlagAt(t.wrapped, t.cur.y) else t.wrapped == s.wrapped
  {
    ScrollFrame(s.(cur := Cursor(s.cur.y + 1, WrapColumn(s), false)));
    I.NextLineKeeps(s);
  }

  /** The alternate screen's rows leave no text behind for the main screen's. */
  lemma AlternateKeepsTail(s: Screen)
    requires s.alt.active
    ensures ScrollUpOnce(s).history.tail == s.history.tail
  {}
}
