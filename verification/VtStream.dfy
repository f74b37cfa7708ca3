/** What each parser event does to the screen. */
module VtStream {
  import opened Prelude
  import opened Sgr
  import opened VtCells
  import opened VtScreen
  import CsiParams
  import VtTable
  import P = Parser

  type Byte = VtTable.Byte

  /** What lies outside the model: the column width of a rune, and the pen link an
      operating-system command leaves (None when it does not touch the link). */
  datatype Env = Env(width: nat -> nat, link: seq<Byte> -> Option<seq<int>>)

  function Width(env: Env, rune: nat): nat { Min(env.width(rune), 2) }

  // --- characters --------------------------------------------------------------------------

  const LINE_DRAWING: seq<nat> := [
    0x25c6, 0x2592, 0x2409, 0x240c, 0x240d, 0x240a, 0x00b0, 0x00b1, 0x2424, 0x240b, 0x2518, 0x2510, 0x250c, 0x2514,
    0x253c, 0x23ba, 0x23bb, 0x2500, 0x23bc, 0x23bd, 0x251c, 0x2524, 0x2534, 0x252c, 0x2502, 0x2264, 0x2265, 0x03c0,
    0x2260, 0x00a3, 0x00b7]

  function ActiveSet(c: Charsets): nat {
    var i := if c.shift >= 2 then c.shift else c.gl;
    if 0 <= i < |c.sets| then c.sets[i] else ASCII
  }

  function Translate(set_: nat, b: Byte): nat {
    if set_ == GRAPHIC && 0x60 <= b <= 0x7E then LINE_DRAWING[b - 0x60]
    else if set_ == GRAPHIC && b == 0x5F then SPACE
    else if set_ == UK && b == 0x23 then 0xA3
    else b
  }

  function PutAscii(s: Screen, env: Env, b: Byte): Screen {
    var rune := Translate(ActiveSet(s.charsets), b);
    PutGlyph(s.(charsets := s.charsets.(shift := if s.charsets.shift >= 2 then NO_SHIFT else s.charsets.shift)),
             rune, Width(env, rune))
  }

  function Designate(s: Screen, slot: Byte, final: Byte): Screen {
    var set_ := if final == '0' as int then GRAPHIC else if final == 'A' as int then UK else ASCII;
    if '(' as int <= slot <= '+' as int && |s.charsets.sets| == 4 then
      s.(charsets := s.charsets.(sets := s.charsets.sets[slot - '(' as int := set_]))
    else s
  }

  // --- controls ------------------------------------------------------------------------------

  function Execute(s: Screen, b: Byte): Screen {
    if b == 0x08 then Backspace(s)
    else if 0x0A <= b <= 0x0C then
      LineDown(s.(cur := s.cur.(pending := false, x := if s.modes.newLine then 0 else s.cur.x)))
    else if b == 0x0D then
      var t := CarriageReturn(s);
      t.(cur := t.cur.(pending := false))
    else if b == 0x09 then
      if !s.cur.pending then Tab(s) else if s.modes.moreFix then Tab(NextLine(s)) else s
    else if b == 0x0E || b == 0x0F then s.(charsets := s.charsets.(gl := if b == 0x0E then 1 else 0))
    else if b == 0x96 || b == 0x97 then s.(pen := s.pen.(isoProtected := b == 0x96))
    else s
  }

  function DispatchEsc(s: Screen, intermediates: seq<Byte>, final: Byte): Screen {
    if intermediates == [] then PlainEsc(s, final as char)
    else if intermediates[0] == '#' as int then (if final == '8' as int then AlignmentTest(s) else s)
    else Designate(s, intermediates[0], final)
  }

  function Settled(s: Screen): Screen { s.(cur := s.cur.(pending := false)) }

  function PlainEsc(s: Screen, final: char): Screen {
    match final
    case '7' => SaveCursor(s)
    case '8' => RestoreCursor(s)
    case 'H' => SetStop(s, true)
    case 'D' => LineDown(Settled(s))
    case 'E' => CarriageReturn(LineDown(Settled(s)))
    case 'M' => ReverseIndex(s)
    case '6' => BackIndex(s)
    case '9' => ForwardIndex(s)
    case 'V' => s.(pen := s.pen.(isoProtected := true))
    case 'W' => s.(pen := s.pen.(isoProtected := false))
    case 'N' => s.(charsets := s.charsets.(shift := 2))
    case 'O' => s.(charsets := s.charsets.(shift := 3))
    case 'c' => HardReset(s)
    case _ => s
  }

  // --- control sequences -------------------------------------------------------------------------

  type Groups = seq<seq<nat>>

  /** At most eight values of a group are ever read. */
  function Cut(gs: Groups): Groups
    decreases |gs|
  {
    if gs == [] then [] else [gs[0][..Min(CsiParams.GROUP_CUT, |gs[0]|)]] + Cut(gs[1..])
  }

  /** The first value of group `i`; absent or zero means `def`. */
  function Val(gs: Groups, i: nat, def: nat): nat {
    if i >= |gs| || gs[i] == [] || gs[i][0] == 0 then def else gs[i][0]
  }

  function Values(gs: Groups): seq<nat>
    decreases |gs|
  {
    if gs == [] then [] else [Val(gs, 0, 0)] + Values(gs[1..])
  }

  const CLEARS_WRAP := {'A', 'B', 'C', 'D', 'E', 'F', 'G', 'H', 'f', 'd', 'e', '`', 'a', 'I', 'Z', 'u'}

  function ToScreenRow(s: Screen, y: int): Screen { s.(cur := s.cur.(y := OriginRow(s, y))) }

  function CsiMotion(s: Screen, gs: Groups, f: char): Screen {
    match f
    case 'A' => Up(s, Val(gs, 0, 1))
    case 'B' => Down(s, Val(gs, 0, 1))
    case 'e' => Down(s, Val(gs, 0, 1))
    case 'C' => Right(s, Val(gs, 0, 1))
    case 'D' => Left(s, Val(gs, 0, 1))
    case 'E' => ToLeft(Down(s, Val(gs, 0, 1)))
    case 'F' => ToLeft(Up(s, Val(gs, 0, 1)))
    case 'G' => ToColumn(s, Val(gs, 0, 1) - 1)
    case '`' => ToColumn(s, Val(gs, 0, 1) - 1)
    case 'H' => MoveTo(s, Val(gs, 0, 1) - 1, Val(gs, 1, 1) - 1)
    case 'f' => MoveTo(s, Val(gs, 0, 1) - 1, Val(gs, 1, 1) - 1)
    case 'a' => Place(s, s.cur.y, s.cur.x + Val(gs, 0, 1))
    case 'd' => ToScreenRow(s, Val(gs, 0, 1) - 1)
    case 'I' => Tabs(s, Val(gs, 0, 1))
    case 'Z' => BackTabs(s, Val(gs, 0, 1))
    case _ => s
  }

  function CsiEdit(s: Screen, env: Env, gs: Groups, marker: Byte, f: char): Screen {
    match f
    case 'J' => EraseDisplay(s, Val(gs, 0, 0), marker == '?' as int)
    case 'K' => EraseLine(s, Val(gs, 0, 0), marker == '?' as int)
    case '@' => InsertChars(s, Val(gs, 0, 1))
    case 'P' => DeleteChars(s, Val(gs, 0, 1))
    case 'L' => InsertLines(s, Val(gs, 0, 1))
    case 'M' => DeleteLines(s, Val(gs, 0, 1))
    case 'X' => EraseChars(s, Val(gs, 0, 1))
    case 'b' => RepeatLast(s, Width(env, s.lastRune), Val(gs, 0, 1))
    case _ => s
  }

  function RegionHeight(s: Screen): nat { Max(s.margins.bottom - s.margins.top + 1, 0) }

  function CsiScroll(s: Screen, gs: Groups, marker: Byte, f: char): Screen {
    match f
    case 'S' => ScrollUpBy(s, Min(Val(gs, 0, 1), RegionHeight(s)))
    case 'T' => if marker == '>' as int then s else ScrollDownBy(s, Min(Val(gs, 0, 1), RegionHeight(s)))
    case '^' => ScrollDownBy(s, Min(Val(gs, 0, 1), RegionHeight(s)))
    case 'r' =>
      if marker == 0 then SetScrollRegion(s, Max(Val(gs, 0, 1) - 1, 0), Min(Val(gs, 1, s.h) - 1, s.h - 1))
      else if marker == '?' as int then RecallModes(s, Values(gs))
      else s
    case 's' =>
      if marker == '?' as int then RememberModes(s, Values(gs))
      else if marker != 0 then s
      else if s.margins.lr then SetSideMargins(s, Max(Val(gs, 0, 1) - 1, 0), Min(Val(gs, 1, s.w) - 1, s.w - 1))
      else SaveCursor(s)
    case 'u' => if marker == 0 then RestoreCursor(s) else s
    case _ => s
  }

  function CsiModes(s: Screen, gs: Groups, marker: Byte, f: char): Screen {
    match f
    case 'm' => if marker == 0 then s.(pen := s.pen.(style := ApplySgr(s.pen.style, Cut(gs)))) else s
    case 'h' => SwitchModes(s, gs, marker, true)
    case 'l' => SwitchModes(s, gs, marker, false)
    case 'g' =>
      if Val(gs, 0, 0) == 0 then SetStop(s, false)
      else if Val(gs, 0, 0) == 3 then s.(tabs := Some(ClearFlags(s.w)))
      else s
    case _ => s
  }

  function SwitchModes(s: Screen, gs: Groups, marker: Byte, on: bool): Screen {
    if marker == '?' as int then ApplyModes(s, Values(gs), on)
    else if marker == 0 then s.(modes := AnsiModes(s.modes, Values(gs), on))
    else s
  }

  /** The first intermediates that keep a sequence from the main table. */
  predicate Consumes(i: Byte) {
    i == ' ' as int || i == '!' as int || i == '$' as int || i == '"' as int || i == '\'' as int || i == '*' as int
  }

  function CsiIntermediate(s: Screen, gs: Groups, i: char, f: char): Screen {
    if i == ' ' then
      if f == '@' then ShiftRows(s, Val(gs, 0, 1)) else if f == 'A' then ShiftRows(s, -(Val(gs, 0, 1) as int)) else s
    else if i == '$' then CsiRectangle(s, gs, f)
    else if i == '\'' then
      if f == '}' then InsertColumns(s, Val(gs, 0, 1)) else if f == '~' then DeleteColumns(s, Val(gs, 0, 1)) else s
    else if i == '!' then (if f == 'p' then SoftReset(s) else s)
    else if i == '"' then
      if f == 'q' then s.(pen := s.pen.(decProtected := Val(gs, 0, 0) == 1))
      else if f == 'p' then s.(modes := s.modes.(level := Val(gs, 0, 65)))
      else s
    else s
  }

  function CsiRectangle(s: Screen, gs: Groups, f: char): Screen {
    var b := RectBox(s, Val(gs, 0, 0), Val(gs, 1, 0), Val(gs, 2, 0), Val(gs, 3, 0));
    match f
    case 'x' => FillRect(s, Val(gs, 0, 0), RectBox(s, Val(gs, 1, 0), Val(gs, 2, 0), Val(gs, 3, 0), Val(gs, 4, 0)))
    case 'z' => EraseBox(s, b, SpareNone)
    case '{' => EraseBox(s, b, SpareDec)
    case 'v' => CopyRect(s, b, Val(gs, 5, 0), Val(gs, 6, 0))
    case _ => s
  }

  /** The families of the main table share no final byte. */
  function CsiMain(s: Screen, env: Env, gs: Groups, marker: Byte, f: char): Screen {
    if IsMotion(f) then CsiMotion(s, gs, f)
    else if IsEdit(f) then CsiEdit(s, env, gs, marker, f)
    else if IsScroll(f) then CsiScroll(s, gs, marker, f)
    else CsiModes(s, gs, marker, f)
  }

  predicate IsMotion(f: char) { f in CLEARS_WRAP && f != 'u' }

  predicate IsEdit(f: char) { f in {'J', 'K', '@', 'P', 'L', 'M', 'X', 'b'} }

  predicate IsScroll(f: char) { f in {'S', 'T', '^', 'r', 's', 'u'} }

  function DispatchCsi(s: Screen, env: Env, gs: Groups, intermediates: seq<Byte>, marker: Byte, final: Byte): Screen {
    var t := if final as char in CLEARS_WRAP then s.(cur := s.cur.(pending := false)) else s;
    if intermediates != [] && Consumes(intermediates[0]) then CsiIntermediate(t, gs, intermediates[0] as char, final as char)
    else CsiMain(t, env, gs, marker, final as char)
  }

  // --- every event --------------------------------------------------------------------------------

  /** Queries, titles, colours and device-control strings leave the model's state alone. */
  function Apply(s: Screen, env: Env, e: P.Event): Screen {
    match e
    case Ascii(b) => PutAscii(s, env, b)
    case Glyph(rune) => PutGlyph(s, rune, Width(env, rune))
    case Exec(b) => Execute(s, b)
    case Esc(i, f) => DispatchEsc(s, i, f)
    case Csi(gs, i, m, f) => DispatchCsi(s, env, gs, i, m, f)
    case Osc(payload) =>
      var l := env.link(payload);
      if l.Some? then s.(pen := s.pen.(link := l.value)) else s
    case DcsHook(_, _) => s
    case DcsPut(_) => s
    case DcsUnhook => s
  }

  function ApplyAll(s: Screen, env: Env, events: seq<P.Event>): Screen
    decreases |events|
  {
    if events == [] then s else ApplyAll(Apply(s, env, events[0]), env, events[1..])
  }

  lemma {:induction false} ApplyAllAppend(s: Screen, env: Env, a: seq<P.Event>, b: seq<P.Event>)
    ensures ApplyAll(s, env, a + b) == ApplyAll(ApplyAll(s, env, a), env, b)
    decreases |a|
  {
    if a == [] {
      assert a + b == b;
    } else {
      assert (a + b)[1..] == a[1..] + b;
      ApplyAllAppend(Apply(s, env, a[0]), env, a[1..], b);
    }
  }

  /** A terminal is a parser and the screen it draws on. */
  datatype Terminal = Terminal(parser: P.Parser, screen: Screen)

  function Write(t: Terminal, env: Env, bytes: seq<Byte>): Terminal {
    var o := P.FeedAll(t.parser, bytes);
    Terminal(o.parser, ApplyAll(t.screen, env, o.events))
  }

  lemma WriteAppend(t: Terminal, env: Env, a: seq<Byte>, b: seq<Byte>)
    ensures Write(t, env, a + b) == Write(Write(t, env, a), env, b)
  {
    P.FoldAppend(P.Feed, t.parser, a, b);
    var o := P.FeedAll(t.parser, a);
    ApplyAllAppend(t.screen, env, o.events, P.FeedAll(o.parser, b).events);
  }

  // --- strings that are cut short draw nothing ------------------------------------------------

  lemma AbortDrawsNothing(s: Screen, env: Env, abort: Byte)
    requires abort == P.CAN || abort == P.SUB
    ensures Apply(s, env, P.Event.Exec(abort)) == s
  {}

  lemma {:induction false} DcsBytesDrawNothing(s: Screen, env: Env, payload: seq<Byte>)
    ensures ApplyAll(s, env, P.DcsBytes(payload)) == s
    decreases |payload|
  {
    if payload != [] {
      DcsBytesDrawNothing(s, env, payload[1..]);
      if payload[0] == 0x7F {
        assert P.DcsBytes(payload) == P.DcsBytes(payload[1..]);
      } else {
        var events := P.DcsBytes(payload);
        assert events[0] == P.DcsPut(payload[0]) && events[1..] == P.DcsBytes(payload[1..]);
        assert Apply(s, env, events[0]) == s;
      }
    }
  }

  /** A terminal at rest that is sent an operating-system command cut short by CAN or SUB,
      and then anything else, shows what it would have shown without the command. */
  lemma AbortedOscDrawsNothing(t: Terminal, env: Env, payload: seq<Byte>, abort: Byte, rest: seq<Byte>)
    requires P.Tidy(t.parser) && t.parser.state == VtTable.GROUND && t.parser.need == 0
    requires P.OscPayload(payload) && (abort == P.CAN || abort == P.SUB)
    ensures Write(t, env, [P.ESC, ']' as int] + payload + [abort] + rest).screen == Write(t, env, rest).screen
  {
    P.AbortedOscIsInvisible(t.parser, payload, abort, rest);
    var after := P.FeedAll(t.parser, rest).events;
    AbortDrawsNothing(t.screen, env, abort);
    assert ([P.Event.Exec(abort)] + after)[1..] == after;
  }

  /** A device-control payload cut short draws nothing either. */
  lemma AbortedDcsDrawsNothing(t: Terminal, env: Env, payload: seq<Byte>, abort: Byte, rest: seq<Byte>)
    requires P.Tidy(t.parser) && t.parser.state == VtTable.DCS_PASSTHROUGH
    requires P.DcsPayload(payload) && (abort == P.CAN || abort == P.SUB)
    ensures Write(t, env, payload + [abort] + rest).screen == Write(t.(parser := P.START), env, rest).screen
  {
    P.AbortedDcsNeverUnhooks(t.parser, payload, abort, rest);
    var after := P.FeedAll(P.START, rest).events;
    var bytes := P.DcsBytes(payload);
    ApplyAllAppend(t.screen, env, bytes + [P.Event.Exec(abort)], after);
    ApplyAllAppend(t.screen, env, bytes, [P.Event.Exec(abort)]);
    DcsBytesDrawNothing(t.screen, env, payload);
    AbortDrawsNothing(t.screen, env, abort);
    var one := [P.Event.Exec(abort)];
    assert one[1..] == [];
    assert ApplyAll(t.screen, env, one) == t.screen;
  }
}
