/** Nothing drawn on the alternate screen reaches the main screen underneath. */
module VtAlternate {
  import opened Prelude
  import opened Sgr
  import opened VtCells
  import opened VtScreen
  import opened VtStream
  import opened VtInvariant
  import P = Parser

  // --- what can end an alternate session ------------------------------------------------

  predicate HasAltMode(modes: seq<nat>) {
    modes != [] && (IsAltMode(modes[0]) || HasAltMode(modes[1..]))
  }

  /** Nothing saved has changed, nor the size it will come back at. */
  predicate SameBehind(s: Screen, t: Screen) { t.alt == s.alt && t.h == s.h && t.w == s.w }

  /** A reset of an alternate-screen mode, a recall of one, or a hard reset. */
  predicate Leaves(e: P.Event) {
    match e
    case Esc(i, f) => i == [] && f as char == 'c'
    case Csi(gs, i, m, f) =>
      && m == '?' as int && (f as char == 'l' || f as char == 'r')
      && !(i != [] && Consumes(i[0])) && HasAltMode(Values(gs))
    case _ => false
  }

  predicate NoneLeave(events: seq<P.Event>) { forall i :: 0 <= i < |events| ==> !Leaves(events[i]) }

  // --- printing and scrolling do not touch what is saved ------------------------------------

  lemma ScrollUpKeepsAlt(s: Screen, n: nat)
    ensures SameBehind(s, ScrollUpBy(s, n))
    decreases n
  {
    if n > 0 { ScrollUpKeepsAlt(ScrollUpOnce(s), n - 1); }
  }

  lemma ScrollDownKeepsAlt(s: Screen, n: nat)
    ensures SameBehind(s, ScrollDownBy(s, n))
    decreases n
  {
    if n > 0 { ScrollDownKeepsAlt(ScrollDownOnce(s), n - 1); }
  }

  lemma NextLineKeepsAlt(s: Screen)
    ensures SameBehind(s, NextLine(s))
  {}

  lemma WrapLineKeepsAlt(s: Screen)
    ensures SameBehind(s, WrapLine(s))
  {
    NextLineKeepsAlt(s);
  }

  lemma PutKeepsAlt(s: Screen, rune: nat, width: nat)
    ensures SameBehind(s, PutGlyph(s, rune, width))
  {
    if width != 0 {
      WrapLineKeepsAlt(s);
      var t := if s.cur.pending then WrapLine(s) else s;
      var b := VtScreen.Write(t, t.cur.x, Cell(SPACE, t.pen.style, [], false, false));
      WrapLineKeepsAlt(b);
      var p := PutWrapped(s, width);
      InkKeepsAlt(if p.modes.insert then InsertChars(p, width) else p, rune, width);
    }
  }

  lemma InkKeepsAlt(s: Screen, rune: nat, width: nat)
    ensures SameBehind(s, Advance(Ink(s, rune, width)))
  {}

  lemma {:induction false} RepeatKeepsAlt(s: Screen, rune: nat, width: nat, n: nat)
    ensures SameBehind(s, Repeat(s, rune, width, n))
    decreases n
  {
    if n > 0 {
      PutKeepsAlt(s, rune, width);
      RepeatKeepsAlt(PutGlyph(s, rune, width), rune, width, n - 1);
    }
  }

  lemma BackspacesKeepAlt(s: Screen, n: nat)
    ensures SameBehind(s, Backspaces(s, n))
    decreases n
  {
    if n > 0 { BackspacesKeepAlt(Backspace(s), n - 1); }
  }

  lemma TabsKeepAlt(s: Screen, n: nat)
    ensures SameBehind(s, Tabs(s, n)) && SameBehind(s, BackTabs(s, n))
    decreases n
  {
    if n > 0 {
      TabsKeepAlt(Tab(s), n - 1);
      TabsKeepAlt(s.(cur := s.cur.(x := PrevStop(s))), n - 1);
    }
  }

  // --- modes ------------------------------------------------------------------------------------

  /** While the alternate screen is up, entering it again does nothing. */
  lemma ModeKeepsAlt(s: Screen, mode: nat, on: bool)
    requires s.alt.active && (IsAltMode(mode) ==> on)
    ensures SameBehind(s, ApplyMode(s, mode, on))
  {}

  lemma {:induction false} ModesKeepAlt(s: Screen, modes: seq<nat>, on: bool)
    requires s.alt.active && (on || !HasAltMode(modes))
    ensures SameBehind(s, ApplyModes(s, modes, on))
    decreases |modes|
  {
    if modes != [] {
      ModeKeepsAlt(s, modes[0], on);
      ModesKeepAlt(ApplyMode(s, modes[0], on), modes[1..], on);
    }
  }

  lemma {:induction false} RecallKeepsAlt(s: Screen, modes: seq<nat>)
    requires s.alt.active && !HasAltMode(modes)
    ensures SameBehind(s, RecallModes(s, modes))
    decreases |modes|
  {
    if modes != [] {
      var t := ApplyMode(s, modes[0], Remembered(s, modes[0]));
      ModeKeepsAlt(s, modes[0], Remembered(s, modes[0]));
      RecallKeepsAlt(t, modes[1..]);
    }
  }

  lemma RememberKeepsAlt(s: Screen, modes: seq<nat>)
    ensures SameBehind(s, RememberModes(s, modes))
    decreases |modes|
  {
    if modes != [] {
      RememberKeepsAlt(s.(saves := s.saves.(modes := s.saves.modes[modes[0] := ModeIsSet(s, modes[0])])), modes[1..]);
    }
  }

  // --- dispatch --------------------------------------------------------------------------------

  lemma ExecuteKeepsAlt(s: Screen, b: Byte)
    ensures SameBehind(s, Execute(s, b))
  {
    if b == 0x09 {
      TabsKeepAlt(s, 0);
      NextLineKeepsAlt(s);
    }
  }

  lemma EscKeepsAlt(s: Screen, intermediates: seq<Byte>, final: Byte)
    requires !Leaves(P.Event.Esc(intermediates, final))
    ensures SameBehind(s, DispatchEsc(s, intermediates, final))
  {}

  lemma CsiMotionKeepsAlt(s: Screen, gs: Groups, f: char)
    ensures SameBehind(s, CsiMotion(s, gs, f))
  {
    var n := Val(gs, 0, 1);
    BackspacesKeepAlt(s, Max(n, 1));
    TabsKeepAlt(s, n);
  }

  lemma EraseKeepsAlt(s: Screen, mode: nat, selective: bool)
    ensures SameBehind(s, EraseDisplay(s, mode, selective)) && SameBehind(s, EraseLine(s, mode, selective))
  {}

  lemma ShiftKeepsAlt(s: Screen, n: int)
    ensures SameBehind(s, InsertChars(s, n)) && SameBehind(s, DeleteChars(s, n))
    ensures SameBehind(s, InsertLines(s, n)) && SameBehind(s, DeleteLines(s, n))
    ensures SameBehind(s, EraseChars(s, n))
  {}

  lemma CsiEditKeepsAlt(s: Screen, env: Env, gs: Groups, marker: Byte, f: char)
    ensures SameBehind(s, CsiEdit(s, env, gs, marker, f))
  {
    match f
    case 'b' =>
      RepeatKeepsAlt(s.(pen := s.pen.(style := s.lastStyle)), s.lastRune, Width(env, s.lastRune), Val(gs, 0, 1));
    case 'J' => EraseKeepsAlt(s, Val(gs, 0, 0), marker == '?' as int);
    case 'K' => EraseKeepsAlt(s, Val(gs, 0, 0), marker == '?' as int);
    case '@' => ShiftKeepsAlt(s, Val(gs, 0, 1));
    case 'P' => ShiftKeepsAlt(s, Val(gs, 0, 1));
    case 'L' => ShiftKeepsAlt(s, Val(gs, 0, 1));
    case 'M' => ShiftKeepsAlt(s, Val(gs, 0, 1));
    case 'X' => ShiftKeepsAlt(s, Val(gs, 0, 1));
    case _ =>
  }

  lemma RegionKeepsAlt(s: Screen, low: int, high: int)
    ensures SameBehind(s, SetScrollRegion(s, low, high)) && SameBehind(s, SetSideMargins(s, low, high))
    ensures SameBehind(s, SaveCursor(s)) && SameBehind(s, RestoreCursor(s))
  {}

  lemma CsiScrollKeepsAlt(s: Screen, gs: Groups, marker: Byte, f: char)
    requires s.alt.active && (f == 'r' && marker == '?' as int ==> !HasAltMode(Values(gs)))
    ensures SameBehind(s, CsiScroll(s, gs, marker, f))
  {
    var n := Min(Val(gs, 0, 1), RegionHeight(s));
    var low := Max(Val(gs, 0, 1) - 1, 0);
    match f
    case 'S' => ScrollUpKeepsAlt(s, n);
    case 'T' => ScrollDownKeepsAlt(s, n);
    case '^' => ScrollDownKeepsAlt(s, n);
    case 'r' =>
      if marker == '?' as int {
        RecallKeepsAlt(s, Values(gs));
      } else {
        RegionKeepsAlt(s, low, Min(Val(gs, 1, s.h) - 1, s.h - 1));
      }
    case 's' =>
      RegionKeepsAlt(s, low, Min(Val(gs, 1, s.w) - 1, s.w - 1));
      RememberKeepsAlt(s, Values(gs));
    case 'u' => RegionKeepsAlt(s, 0, 0);
    case _ =>
  }

  lemma CsiModesKeepAlt(s: Screen, gs: Groups, marker: Byte, f: char)
    requires s.alt.active && (f == 'l' && marker == '?' as int ==> !HasAltMode(Values(gs)))
    ensures SameBehind(s, CsiModes(s, gs, marker, f))
  {
    ModesKeepAlt(s, Values(gs), true);
    if f == 'l' && marker == '?' as int { ModesKeepAlt(s, Values(gs), false); }
  }

  lemma CsiIntermediateKeepsAlt(s: Screen, gs: Groups, i: char, f: char)
    ensures SameBehind(s, CsiIntermediate(s, gs, i, f))
  {}

  /** No event but those that leave changes anything the alternate screen has saved. */
  lemma ApplyKeepsAlt(s: Screen, env: Env, e: P.Event)
    requires s.alt.active && !Leaves(e)
    ensures SameBehind(s, Apply(s, env, e))
  {
    match e
    case Ascii(b) =>
      var rune := Translate(ActiveSet(s.charsets), b);
      PutKeepsAlt(s.(charsets := s.charsets.(shift := if s.charsets.shift >= 2 then NO_SHIFT else s.charsets.shift)),
                  rune, Width(env, rune));
    case Glyph(rune) => PutKeepsAlt(s, rune, Width(env, rune));
    case Exec(b) => ExecuteKeepsAlt(s, b);
    case Esc(i, f) => EscKeepsAlt(s, i, f);
    case Csi(gs, i, m, f) =>
      var t := if f as char in CLEARS_WRAP then Settled(s) else s;
      if i != [] && Consumes(i[0]) {
        CsiIntermediateKeepsAlt(t, gs, i[0] as char, f as char);
      } else {
        CsiMotionKeepsAlt(t, gs, f as char);
        CsiEditKeepsAlt(t, env, gs, m, f as char);
        CsiScrollKeepsAlt(t, gs, m, f as char);
        CsiModesKeepAlt(t, gs, m, f as char);
      }
    case Osc(_) =>
    case DcsHook(_, _) =>
    case DcsPut(_) =>
    case DcsUnhook =>
  }

  lemma {:induction false} ApplyAllKeepsAlt(s: Screen, env: Env, events: seq<P.Event>)
    requires s.alt.active && NoneLeave(events)
    ensures SameBehind(s, ApplyAll(s, env, events))
    decreases |events|
  {
    if events != [] {
      assert !Leaves(events[0]);
      assert NoneLeave(events[1..]);
      ApplyKeepsAlt(s, env, events[0]);
      ApplyAllKeepsAlt(Apply(s, env, events[0]), env, events[1..]);
    }
  }

  // --- the theorem -------------------------------------------------------------------------------

  lemma RefitSame(g: Grid, f: seq<bool>, h: nat, w: nat)
    requires Sized(g, h, w) && |f| == h
    ensures Refit(g, h, w, 0) == g && RefitFlags(f, h, 0) == f
  {
    RefitCells(g, h, w, 0);
    SameGrid(Refit(g, h, w, 0), g, h, w);
  }

  /** Enter the alternate screen, do anything at all that neither leaves it nor resizes,
      and leave by mode 1049: cells, wrap flags, cursor, pen and scroll region of the main
      screen are what they were. */
  lemma AlternateSessionIsIsolated(s: Screen, env: Env, enter: nat, events: seq<P.Event>)
    requires WellFormed(s) && !s.alt.active && IsAltMode(enter) && NoneLeave(events)
    ensures
      var t := ResetMode(ApplyAll(SetMode(s, enter), env, events), 1049);
      && !t.alt.active && t.cells == s.cells && t.wrapped == s.wrapped
      && t.cur.y == s.cur.y && t.cur.x == s.cur.x && t.pen.style == s.pen.style
      && t.margins.top == s.margins.top && t.margins.bottom == s.margins.bottom
  {
    var inside := EnterAlt(s, enter);
    assert inside.alt.active && inside.alt.saved == Some(SavedMain(s)) && inside.h == s.h && inside.w == s.w;
    ApplyAllKeepsAlt(inside, env, events);
    RefitSame(s.cells, s.wrapped, s.h, s.w);
  }
}
