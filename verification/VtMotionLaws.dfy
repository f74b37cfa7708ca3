/** Where the cursor goes: single steps and their sums, addressed cells, tab stops, the
    left edge; said of the bytes and sequences that ask for it. */
module VtMotionLaws {
  import opened Prelude
  import opened Sgr
  import opened VtCells
  import opened VtScreen
  import opened VtStream
  import opened VtLaws
  import opened VtEditLaws
  import I = VtInvariant

  /** Only the cursor has moved, and no wrap is deferred. */
  predicate MovedTo(s: Screen, t: Screen, y: int, x: int) { t == s.(cur := Cursor(y, x, false)) }

  // --- by steps ----------------------------------------------------------------------------

  /** CUU: one row up, stopped by the top margin and the top of the screen. */
  lemma UpOne(s: Screen, env: Env)
    requires I.Safe(s)
    ensures MovedTo(s, Csi(s, env, [1], 'A'), if s.cur.y == s.margins.top || s.cur.y == 0 then s.cur.y else s.cur.y - 1, s.cur.x)
  {}

  lemma DownOne(s: Screen, env: Env)
    requires I.Safe(s)
    ensures MovedTo(s, Csi(s, env, [1], 'B'), if s.cur.y == s.margins.bottom || s.cur.y == s.h - 1 then s.cur.y else s.cur.y + 1, s.cur.x)
  {}

  lemma RightOne(s: Screen, env: Env)
    requires I.Safe(s)
    ensures MovedTo(s, Csi(s, env, [1], 'C'), s.cur.y, if s.cur.x == RightColumn(s) || s.cur.x == s.w - 1 then s.cur.x else s.cur.x + 1)
  {}

  lemma LeftOne(s: Screen, env: Env)
    requires I.Safe(s) && !(s.modes.reverseWrap && s.modes.autoWrap)
    ensures MovedTo(s, Csi(s, env, [1], 'D'), s.cur.y, if s.cur.x == LeftColumn(s) || s.cur.x == 0 then s.cur.x else s.cur.x - 1)
  {}

  /** Under reverse wrap a step left is a backspace. */
  lemma LeftOneBacks(s: Screen, env: Env)
    requires I.Safe(s) && s.modes.reverseWrap && s.modes.autoWrap
    ensures Csi(s, env, [1], 'D') == Execute(Settled(s), 0x08)
  {}

  /** Many steps at once are as many single ones. */
  lemma UpSums(s: Screen, env: Env, n: nat)
    requires I.Safe(s) && n >= 1
    ensures Csi(s, env, [n + 1], 'A') == Csi(Csi(s, env, [1], 'A'), env, [n], 'A')
  {}

  lemma DownSums(s: Screen, env: Env, n: nat)
    requires I.Safe(s) && n >= 1
    ensures Csi(s, env, [n + 1], 'B') == Csi(Csi(s, env, [1], 'B'), env, [n], 'B')
  {}

  lemma RightSums(s: Screen, env: Env, n: nat)
    requires I.Safe(s) && n >= 1
    ensures Csi(s, env, [n + 1], 'C') == Csi(Csi(s, env, [1], 'C'), env, [n], 'C')
  {}

  lemma LeftSequence(s: Screen, env: Env, n: nat)
    requires n >= 1
    ensures Csi(s, env, [n], 'D') == Left(Settled(s), n)
  {}

  lemma LeftAgain(s: Screen, n: nat)
    requires I.Safe(s) && !s.cur.pending && n >= 1
    ensures Left(s, n + 1) == Left(Left(s, 1), n) && Left(s, 1).cur.pending == false
  {
    if s.modes.reverseWrap && s.modes.autoWrap {
      assert Backspaces(Backspace(s), 0) == Backspace(s);
      assert Left(s, 1) == Backspace(s);
    }
  }

  lemma LeftSums(s: Screen, env: Env, n: nat)
    requires I.Safe(s) && n >= 1
    ensures Csi(s, env, [n + 1], 'D') == Csi(Csi(s, env, [1], 'D'), env, [n], 'D')
  {
    LeftSequence(s, env, n + 1);
    LeftSequence(s, env, 1);
    LeftSequence(Csi(s, env, [1], 'D'), env, n);
    I.SameFrameKeeps(s, Settled(s));
    LeftAgain(Settled(s), n);
  }

  /** CNL, CPL: down or up, and to the left margin; VPR is CUD; HPR heeds no margin. */
  lemma NextLineReturns(s: Screen, env: Env, n: nat)
    requires I.Safe(s) && n >= 1
    ensures var t := Csi(s, env, [n], 'B'); Csi(s, env, [n], 'E') == t.(cur := t.cur.(x := LeftColumn(s)))
  {}

  lemma PrecedingLineReturns(s: Screen, env: Env, n: nat)
    requires I.Safe(s) && n >= 1
    ensures var t := Csi(s, env, [n], 'A'); Csi(s, env, [n], 'F') == t.(cur := t.cur.(x := LeftColumn(s)))
  {}

  lemma RowsForward(s: Screen, env: Env, n: nat)
    ensures Csi(s, env, [n], 'e') == Csi(s, env, [n], 'B')
  {}

  lemma ColumnsForward(s: Screen, env: Env, n: nat)
    requires I.Safe(s) && n >= 1
    ensures MovedTo(s, Csi(s, env, [n], 'a'), s.cur.y, Min(s.cur.x + n, s.w - 1))
  {}

  // --- by address --------------------------------------------------------------------------

  /** The row and column addresses count from: the region's corner in origin mode. */
  function RowOf(s: Screen, row: nat): int {
    if s.modes.origin then Min(s.margins.top + row - 1, s.margins.bottom) else Min(row - 1, s.h - 1)
  }

  function ColumnOf(s: Screen, col: nat): int {
    if s.modes.origin then Min(LeftColumn(s) + col - 1, RightColumn(s)) else Min(col - 1, s.w - 1)
  }

  /** CUP: to the cell addressed, or the nearest the page has. */
  lemma AddressesCell(s: Screen, env: Env, row: nat, col: nat)
    requires I.Safe(s) && row >= 1 && col >= 1
    ensures MovedTo(s, Csi(s, env, [row, col], 'H'), RowOf(s, row), ColumnOf(s, col))
  {}

  lemma AddressesCellToo(s: Screen, env: Env, row: nat, col: nat)
    ensures Csi(s, env, [row, col], 'f') == Csi(s, env, [row, col], 'H')
  {}

  /** Without parameters, to the page's first cell. */
  lemma HomesPlainly(s: Screen, env: Env)
    requires I.Safe(s)
    ensures MovedTo(s, Csi(s, env, [], 'H'), if s.modes.origin then s.margins.top else 0, if s.modes.origin then LeftColumn(s) else 0)
  {}

  lemma AddressesColumn(s: Screen, env: Env, col: nat)
    requires I.Safe(s) && col >= 1
    ensures MovedTo(s, Csi(s, env, [col], 'G'), s.cur.y, ColumnOf(s, col))
  {}

  lemma AddressesColumnToo(s: Screen, env: Env, col: nat)
    ensures Csi(s, env, [col], '`') == Csi(s, env, [col], 'G')
  {}

  lemma AddressesRow(s: Screen, env: Env, row: nat)
    requires I.Safe(s) && row >= 1
    ensures MovedTo(s, Csi(s, env, [row], 'd'), RowOf(s, row), s.cur.x)
  {}

  // --- controls ----------------------------------------------------------------------------

  /** CR: to the left margin, or from before it to column 0. */
  lemma ReturnsToLeft(s: Screen)
    requires I.Safe(s)
    ensures MovedTo(s, Execute(s, 0x0D), s.cur.y, if s.cur.x < LeftColumn(s) then 0 else LeftColumn(s))
  {}

  /** BS: one column back but not over the left margin from within it; a deferred wrap is
      undone instead, and the margin wraps back, only under reverse wrap. */
  lemma BacksOne(s: Screen)
    requires I.Safe(s)
    ensures
      var t := Execute(s, 0x08);
      if !(s.modes.reverseWrap && s.modes.autoWrap) then
        MovedTo(s, t, s.cur.y, if s.cur.x == LeftColumn(s) || s.cur.x == 0 then s.cur.x else s.cur.x - 1)
      else if s.cur.pending then MovedTo(s, t, s.cur.y, s.cur.x)
      else if s.cur.x > LeftColumn(s) then MovedTo(s, t, s.cur.y, s.cur.x - 1)
      else MovedTo(s, t, if s.cur.y > s.margins.top then s.cur.y - 1 else s.margins.bottom, RightColumn(s))
  {}

  // --- tab stops ---------------------------------------------------------------------------

  /** Whether a column is a stop: one of those set, or by default every eighth. */
  predicate IsStop(s: Screen, x: int) {
    if s.tabs.Some? then 0 <= x < |s.tabs.value| && s.tabs.value[x] else x > 0 && x % 8 == 0
  }

  lemma {:induction false} NextSetIsFirst(t: seq<bool>, i: nat, w: nat)
    requires |t| == w && i <= w
    ensures
      var n := NextSet(t, i, w);
      i <= n <= w && (n < w ==> t[n]) && forall k :: i <= k < n ==> !t[k]
    decreases w - i
  {
    if i < w && !t[i] { NextSetIsFirst(t, i + 1, w); }
  }

  lemma {:induction false} PrevSetIsLast(t: seq<bool>, i: int)
    requires i < |t|
    ensures
      var n := PrevSet(t, i);
      0 <= n <= Max(i, 0) && (n > 0 ==> t[n]) && forall k :: n < k <= i ==> !t[k]
    decreases i
  {
    if i >= 0 && !t[i] { PrevSetIsLast(t, i - 1); }
  }

  /** The next stop is the first past the cursor, or the width if none is on the screen. */
  lemma NextStopIsFirst(s: Screen, x: int)
    requires I.Safe(s)
    ensures s.cur.x < NextStop(s) && (NextStop(s) < s.w ==> IsStop(s, NextStop(s)))
    ensures s.cur.x < x < Min(NextStop(s), s.w) ==> !IsStop(s, x)
  {
    if s.tabs.Some? { NextSetIsFirst(s.tabs.value, s.cur.x + 1, s.w); }
  }

  lemma PrevStopIsLast(s: Screen, x: int)
    requires I.Safe(s)
    ensures 0 <= PrevStop(s) <= s.cur.x && (PrevStop(s) > 0 ==> IsStop(s, PrevStop(s)) && PrevStop(s) < s.cur.x)
    ensures PrevStop(s) < x < s.cur.x ==> !IsStop(s, x)
  {
    if s.tabs.Some? { PrevSetIsLast(s.tabs.value, s.cur.x - 1); }
  }

  /** HT: to the first stop past the cursor, but no further than the right margin from
      within it, or the last column; nothing lies between that would have stopped it. */
  lemma TabsToStop(s: Screen, x: int)
    requires I.Safe(s) && !s.cur.pending
    ensures
      var t := Execute(s, 0x09);
      var edge := if s.cur.x <= RightColumn(s) then RightColumn(s) else s.w - 1;
      && MovedTo(s, t, s.cur.y, t.cur.x) && s.cur.x <= t.cur.x <= edge
      && (t.cur.x < edge ==> t.cur.x > s.cur.x && IsStop(s, t.cur.x))
      && (s.cur.x < x < t.cur.x ==> !IsStop(s, x))
  {
    NextStopIsFirst(s, x);
  }

  /** CHT and CBT go stop by stop. */
  lemma TabSums(s: Screen, n: nat)
    requires I.Safe(s) && n >= 1
    ensures Tabs(s, n + 1) == Tabs(Tab(s), n)
  {
    if TabStuck(s) {
      assert Tab(s) == s;
    }
  }

  lemma TabsForward(s: Screen, env: Env, n: nat)
    requires n >= 1
    ensures Csi(s, env, [n], 'I') == Tabs(Settled(s), n)
  {}

  lemma OneTabForward(s: Screen, env: Env)
    requires I.Safe(s)
    ensures Csi(s, env, [1], 'I') == Execute(Settled(s), 0x09)
  {
    TabsForward(s, env, 1);
    var t := Settled(s);
    assert Tabs(Tab(t), 0) == Tab(t);
    if TabStuck(t) { assert Tab(t) == t; }
  }

  lemma OneTabBack(s: Screen, env: Env, x: int)
    requires I.Safe(s)
    ensures
      var t := Csi(s, env, [1], 'Z');
      && MovedTo(s, t, s.cur.y, t.cur.x) && 0 <= t.cur.x && (t.cur.x > 0 ==> IsStop(s, t.cur.x) && t.cur.x < s.cur.x)
      && (t.cur.x < x < s.cur.x ==> !IsStop(s, x))
  {
    PrevStopIsLast(s, x);
    assert Csi(s, env, [1], 'Z') == BackTabs(Settled(s), 1);
    var p := PrevStop(s);
    assert PrevStop(Settled(s)) == p;
    if p > 0 { assert BackTabs(Settled(s).(cur := Settled(s).cur.(x := p)), 0) == Settled(s).(cur := Settled(s).cur.(x := p)); }
  }

  lemma BackTabSums(s: Screen, n: nat)
    requires I.Safe(s) && n >= 1
    ensures BackTabs(s, n + 1) == BackTabs(BackTabs(s, 1), n)
  {
    PrevStopIsLast(s, 0);
    var p := PrevStop(s);
    if p > 0 { assert BackTabs(s, 1) == BackTabs(s.(cur := s.cur.(x := p)), 0) == s.(cur := s.cur.(x := p)); }
  }

  /** HTS sets a stop at the cursor and TBC clears it, and leave every other as it was; TBC
      3 clears them all. */
  lemma SetsOneStop(s: Screen, x: nat)
    requires I.Safe(s) && x < s.w
    ensures IsStop(Esc(s, 'H'), x) <==> x == s.cur.x || IsStop(s, x)
  {}

  lemma ClearsOneStop(s: Screen, env: Env, x: nat)
    requires I.Safe(s) && x < s.w
    ensures IsStop(Csi(s, env, [0], 'g'), x) <==> x != s.cur.x && IsStop(s, x)
  {}

  lemma ClearsEveryStop(s: Screen, env: Env, x: nat)
    requires x < s.w
    ensures !IsStop(Csi(s, env, [3], 'g'), x)
  {}

  // --- parameters left out -------------------------------------------------------------------

  /** The motions and edits that take one count: zero, or none, counts as one. */
  lemma NoCountIsOne(s: Screen, env: Env, f: Final)
    requires f in "ABCDEFG`adeIZ@PLMXbST^"
    ensures Csi(s, env, [0], f) == Csi(s, env, [1], f) == Csi(s, env, [], f)
  {
    CountOf([0]);
    CountOf([1]);
    CountOf([]);
    OnlyCountMatters(s, env, Groups1([0]), Groups1([1]), f);
    OnlyCountMatters(s, env, Groups1([]), Groups1([1]), f);
  }

  lemma CountOf(ps: seq<nat>)
    requires |ps| <= 1
    ensures Val(Groups1(ps), 0, 1) == if ps == [] then 1 else Max(ps[0], 1)
  {}

  lemma MotionsTakeCount(s: Screen, gs: Groups, hs: Groups, f: char)
    requires f in "ABCDEFG`adeIZ" && Val(gs, 0, 1) == Val(hs, 0, 1)
    ensures CsiMotion(s, gs, f) == CsiMotion(s, hs, f)
  {}

  lemma EditsTakeCount(s: Screen, env: Env, gs: Groups, hs: Groups, f: char)
    requires f in "@PLMXb" && Val(gs, 0, 1) == Val(hs, 0, 1)
    ensures CsiEdit(s, env, gs, 0, f) == CsiEdit(s, env, hs, 0, f)
  {}

  lemma ScrollsTakeCount(s: Screen, gs: Groups, hs: Groups, f: char)
    requires f in "ST^" && Val(gs, 0, 1) == Val(hs, 0, 1)
    ensures CsiScroll(s, gs, 0, f) == CsiScroll(s, hs, 0, f)
  {}

  lemma OnlyCountMatters(s: Screen, env: Env, gs: Groups, hs: Groups, f: Final)
    requires f in "ABCDEFG`adeIZ@PLMXbST^" && Val(gs, 0, 1) == Val(hs, 0, 1)
    ensures DispatchCsi(s, env, gs, [], 0, f as int) == DispatchCsi(s, env, hs, [], 0, f as int)
  {
    var t := if f in CLEARS_WRAP then Settled(s) else s;
    if f in "ABCDEFG`adeIZ" {
      MotionsTakeCount(t, gs, hs, f);
    } else if f in "@PLMXb" {
      EditsTakeCount(t, env, gs, hs, f);
    } else {
      ScrollsTakeCount(t, gs, hs, f);
    }
  }
}
