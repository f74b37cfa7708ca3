/** Whole control sequences, from the bytes a program writes to what the screen becomes. */
module VtSequences {
  import opened Prelude
  import C = CsiParams
  import S = Sgr
  import opened VtTable
  import P = Parser
  import opened VtStream
  import V = VtScreen
  import A = VtAlternate
  import I = VtInvariant

  // --- one CSI sequence ------------------------------------------------------------------

  predicate ParamChar(c: char) { '0' <= c <= ';' }

  predicate ParamText(text: string) { forall i :: 0 <= i < |text| ==> ParamChar(text[i]) }

  function Ascii7(c: char): Byte { if c as int < 256 then c as int else 0 }

  function TextBytes(text: string): seq<Byte> { if text == "" then [] else [Ascii7(text[0])] + TextBytes(text[1..]) }

  /** A private marker, or none. */
  function MarkerBytes(marker: Byte): seq<Byte> { if marker == 0 then [] else [marker] }

  predicate Marks(marker: Byte) { marker == 0 || 0x3C <= marker <= 0x3F }

  function CsiBytes(marker: Byte, text: string, final: Byte): seq<Byte> {
    [P.ESC, 0x5B] + (MarkerBytes(marker) + (TextBytes(text) + [final]))
  }

  predicate AtRest(p: P.Parser) { P.Tidy(p) && p.state == GROUND && p.need == 0 }

  /** Parameter bytes change nothing but the parameters. */
  lemma {:induction false} ParamsAreRead(p: P.Parser, text: string)
    requires P.Tidy(p) && (p.state == CSI_ENTRY || p.state == CSI_PARAM) && ParamText(text)
    ensures
      p.params.groups != [] &&
      P.FeedAll(p, TextBytes(text)) ==
      P.Output(p.(state := if text == "" then p.state else CSI_PARAM, params := C.FeedAll(p.params, text)), [])
    decreases |text|
  {
    if text != "" {
      var c := Ascii7(text[0]);
      assert ParamChar(text[0]);
      OneParam(p, text[0]);
      var q := P.Feed(p, c).parser;
      P.FeedStaysTidy(p, c);
      assert TextBytes(text)[1..] == TextBytes(text[1..]);
      ParamsAreRead(q, text[1..]);
    }
  }

  lemma OneParam(p: P.Parser, c: char)
    requires P.Tidy(p) && (p.state == CSI_ENTRY || p.state == CSI_PARAM) && ParamChar(c)
    ensures P.Feed(p, Ascii7(c)) == P.Output(p.(state := CSI_PARAM, params := C.Feed(p.params, c)), [])
  {}

  /** ESC ends whatever was being read, which may deliver an event of its own. */
  lemma Introduced(p: P.Parser)
    requires P.Tidy(p)
    ensures
      var e := P.Feed(p, P.ESC).parser;
      && P.Feed(e, 0x5B) == P.Output(e.(state := CSI_ENTRY), [])
      && e.params == C.CLEARED && e.intermediates == [] && e.marker == 0 && e.need == 0
      && (AtRest(p) ==> P.Feed(p, P.ESC).events == [])
  {
    P.EscapeClears(p);
  }

  lemma Marked(p: P.Parser, marker: Byte)
    requires P.Tidy(p) && p.state == CSI_ENTRY && p.marker == 0 && Marks(marker) && marker != 0
    ensures P.Feed(p, marker) == P.Output(p.(state := CSI_PARAM, marker := marker), [])
  {}

  lemma Dispatched(p: P.Parser, final: Byte)
    requires P.Tidy(p) && (p.state == CSI_ENTRY || p.state == CSI_PARAM) && 0x40 <= final <= 0x7E
    ensures
      p.params.groups != [] &&
      P.Feed(p, final) ==
      P.Output(p.(state := GROUND, params := C.Finalize(p.params)), [P.Csi(C.Finalize(p.params).groups, p.intermediates, p.marker, final)])
  {}

  /** Two bytes, one after the other. */
  lemma FeedTwo(p: P.Parser, a: Byte, b: Byte, rest: seq<Byte>)
    ensures
      var q := P.Feed(p, a);
      var r := P.Feed(q.parser, b);
      var o := P.FeedAll(r.parser, rest);
      P.FeedAll(p, [a, b] + rest) == P.Output(o.parser, q.events + (r.events + o.events))
  {
    var all := [a, b] + rest;
    assert all[1..] == [b] + rest;
    assert ([b] + rest)[1..] == rest;
    assert P.FeedAll(P.Feed(p, a).parser, [b] + rest) ==
      P.Output(P.FeedAll(P.Feed(P.Feed(p, a).parser, b).parser, rest).parser,
             P.Feed(P.Feed(p, a).parser, b).events + P.FeedAll(P.Feed(P.Feed(p, a).parser, b).parser, rest).events);
  }

  /** Whatever was being read before, a control sequence is delivered as one event: its
      parameters split at every `;` and `:`, its marker and its final byte; and the parser
      is at rest again. */
  lemma CsiIsParsed(p: P.Parser, marker: Byte, text: string, final: Byte)
    requires P.Tidy(p) && Marks(marker) && ParamText(text) && 0x40 <= final <= 0x7E
    ensures
      var o := P.FeedAll(p, CsiBytes(marker, text, final));
      && o.events == P.Feed(p, P.ESC).events + [P.Csi(C.Parse(text), [], marker, final)]
      && AtRest(o.parser)
  {
    var escaped := P.Feed(p, P.ESC).parser;
    Introduced(p);
    P.FeedStaysTidy(p, P.ESC);
    P.FeedStaysTidy(escaped, 0x5B);
    FeedTwo(p, P.ESC, 0x5B, MarkerBytes(marker) + (TextBytes(text) + [final]));
    MarkerThenRest(P.Feed(escaped, 0x5B).parser, marker, text, final);
  }

  lemma MarkerThenRest(p: P.Parser, marker: Byte, text: string, final: Byte)
    requires P.Tidy(p) && p.state == CSI_ENTRY && p.params == C.CLEARED && p.marker == 0 && p.need == 0
    requires Marks(marker) && ParamText(text) && 0x40 <= final <= 0x7E
    ensures
      var o := P.FeedAll(p, MarkerBytes(marker) + (TextBytes(text) + [final]));
      o.events == [P.Csi(C.Parse(text), p.intermediates, marker, final)] && AtRest(o.parser)
  {
    var tail := TextBytes(text) + [final];
    if marker == 0 {
      assert MarkerBytes(marker) + tail == tail;
      ParamsThenFinal(p, text, final);
    } else {
      Marked(p, marker);
      P.FeedStaysTidy(p, marker);
      P.FeedAllOne(p, marker);
      P.FoldAppend(P.Feed, p, [marker], tail);
      ParamsThenFinal(P.Feed(p, marker).parser, text, final);
    }
  }

  lemma ParamsThenFinal(p: P.Parser, text: string, final: Byte)
    requires P.Tidy(p) && (p.state == CSI_ENTRY || p.state == CSI_PARAM) && p.params == C.CLEARED && p.need == 0
    requires ParamText(text) && 0x40 <= final <= 0x7E
    ensures
      var o := P.FeedAll(p, TextBytes(text) + [final]);
      o.events == [P.Csi(C.Parse(text), p.intermediates, p.marker, final)] && AtRest(o.parser)
  {
    ParamsAreRead(p, text);
    var q := P.FeedAll(p, TextBytes(text)).parser;
    P.RunsStayTidy(p, TextBytes(text));
    Dispatched(q, final);
    P.FeedStaysTidy(q, final);
    P.FeedAllOne(q, final);
    P.FoldAppend(P.Feed, p, TextBytes(text), [final]);
  }

  // --- rendition ------------------------------------------------------------------------------

  lemma {:induction false} DecimalIsParamText(n: nat)
    ensures ParamText(S.Decimal(n))
    decreases n
  {
    if n >= 10 { DecimalIsParamText(n / 10); }
  }

  lemma {:induction false} JoinIsParamText(ps: seq<nat>)
    requires ps != []
    ensures ParamText(S.Join(ps))
    decreases |ps|
  {
    DecimalIsParamText(ps[0]);
    if |ps| > 1 { JoinIsParamText(ps[1..]); }
  }

  lemma {:induction false} CutSingles(gs: Groups)
    requires forall i :: 0 <= i < |gs| ==> |gs[i]| <= C.GROUP_CUT
    ensures Cut(gs) == gs
    decreases |gs|
  {
    if gs != [] {
      CutSingles(gs[1..]);
      assert gs[0][..|gs[0]|] == gs[0];
    }
  }

  lemma ApplyOne(s: V.Screen, env: Env, events: seq<P.Event>, e: P.Event)
    requires events == [e]
    ensures ApplyAll(s, env, events) == Apply(s, env, e)
  {
    assert events[0] == e && events[1..] == [];
    assert ApplyAll(s, env, events) == ApplyAll(Apply(s, env, events[0]), env, events[1..]);
  }

  lemma RenditionSetsPen(s: V.Screen, env: Env, gs: Groups)
    requires forall i :: 0 <= i < |gs| ==> |gs[i]| <= C.GROUP_CUT
    ensures Apply(s, env, P.Csi(gs, [], 0, 'm' as int)).pen.style == S.ApplySgr(s.pen.style, gs)
  {
    CutSingles(gs);
  }

  lemma SinglesAreShort(st: S.Style)
    requires S.StyleOk(st)
    ensures forall i :: 0 <= i < |C.Parse(S.SgrString(st))| ==> |C.Parse(S.SgrString(st))[i]| <= C.GROUP_CUT
  {
    S.ParamsFit(st);
    S.ParseJoin(S.SgrParams(st));
    S.SinglesAt(S.SgrParams(st));
  }

  /** A control sequence written to a terminal at rest is applied once. */
  lemma CsiIsApplied(t: Terminal, env: Env, marker: Byte, text: string, final: Byte)
    requires AtRest(t.parser) && Marks(marker) && ParamText(text) && 0x40 <= final <= 0x7E
    ensures
      var after := Write(t, env, CsiBytes(marker, text, final));
      && after.screen == Apply(t.screen, env, P.Csi(C.Parse(text), [], marker, final))
      && AtRest(after.parser)
  {
    CsiIsParsed(t.parser, marker, text, final);
    Introduced(t.parser);
    var events := P.FeedAll(t.parser, CsiBytes(marker, text, final)).events;
    ApplyOne(t.screen, env, events, P.Csi(C.Parse(text), [], marker, final));
  }

  /** The bytes printed for a style, written to any terminal at rest, give the pen that
      style, whatever it was before. */
  lemma PrintedStyleSetsPen(t: Terminal, env: Env, st: S.Style)
    requires AtRest(t.parser) && S.StyleOk(st) && !(st.attrs.underline && st.attrs.doubleUnderline)
    ensures Write(t, env, CsiBytes(0, S.SgrString(st), 'm' as int)).screen.pen.style == st
  {
    var text := S.SgrString(st);
    S.ParamsFit(st);
    JoinIsParamText(S.SgrParams(st));
    CsiIsApplied(t, env, 0, text, 'm' as int);
    SinglesAreShort(st);
    RenditionSetsPen(t.screen, env, C.Parse(text));
    S.PrintedStyleReadsBack(t.screen.pen.style, st);
  }

  // --- a program's visit to the alternate screen -------------------------------------------------

  /** ESC [ ? 1049 h and ESC [ ? 1049 l. */
  function AltBytes(on: bool): seq<Byte> { CsiBytes('?' as int, S.Join([1049]), if on then 'h' as int else 'l' as int) }

  function AltEvent(on: bool): P.Event { P.Csi([[1049]], [], '?' as int, if on then 'h' as int else 'l' as int) }

  lemma AltIsParsed(p: P.Parser, on: bool)
    requires P.Tidy(p)
    ensures
      var o := P.FeedAll(p, AltBytes(on));
      o.events == P.Feed(p, P.ESC).events + [AltEvent(on)] && AtRest(o.parser)
  {
    JoinIsParamText([1049]);
    S.ParseJoin([1049]);
    assert S.Singles([1049]) == [[1049]];
    CsiIsParsed(p, '?' as int, S.Join([1049]), if on then 'h' as int else 'l' as int);
  }

  lemma AltIsApplied(s: V.Screen, env: Env, on: bool)
    ensures Apply(s, env, AltEvent(on)) == (if on then V.SetMode(s, 1049) else V.ResetMode(s, 1049))
  {
    var gs: Groups := [[1049]];
    assert gs[1..] == [];
    assert Values(gs) == [1049];
    assert [1049][1..] == [];
  }

  /** What an interrupted sequence delivers never ends an alternate session. */
  lemma EscapeNeverLeaves(p: P.Parser)
    requires P.Tidy(p)
    ensures A.NoneLeave(P.Feed(p, P.ESC).events)
  {}

  /** The whole visit as events: enter, what was visited, what was cut off, leave. */
  lemma VisitEvents(t: Terminal, env: Env, visit: seq<Byte>)
    requires AtRest(t.parser)
    ensures
      var entered := P.FeedAll(t.parser, AltBytes(true));
      var visited := P.FeedAll(entered.parser, visit);
      var cut := P.Feed(visited.parser, P.ESC).events;
      var inside := ApplyAll(Apply(t.screen, env, AltEvent(true)), env, visited.events + cut);
      Write(t, env, AltBytes(true) + visit + AltBytes(false)).screen == Apply(inside, env, AltEvent(false))
  {
    var entered := P.FeedAll(t.parser, AltBytes(true));
    var visited := P.FeedAll(entered.parser, visit);
    var cut := P.Feed(visited.parser, P.ESC).events;
    AltIsParsed(t.parser, true);
    Introduced(t.parser);
    P.RunsStayTidy(entered.parser, visit);
    AltIsParsed(visited.parser, false);
    WriteAppend(t, env, AltBytes(true) + visit, AltBytes(false));
    WriteAppend(t, env, AltBytes(true), visit);
    ApplyOne(t.screen, env, entered.events, AltEvent(true));
    var first := Apply(t.screen, env, AltEvent(true));
    var middle := ApplyAll(first, env, visited.events);
    ApplyAllAppend(first, env, visited.events, cut);
    ApplyAllAppend(middle, env, cut, [AltEvent(false)]);
    ApplyOne(ApplyAll(middle, env, cut), env, [AltEvent(false)], AltEvent(false));
  }

  /** The same, as modes: entered, drawn on by events that do not leave, and left. */
  lemma VisitIsASession(t: Terminal, env: Env, visit: seq<Byte>)
    requires AtRest(t.parser)
    requires A.NoneLeave(P.FeedAll(P.FeedAll(t.parser, AltBytes(true)).parser, visit).events)
    ensures
      var visited := P.FeedAll(P.FeedAll(t.parser, AltBytes(true)).parser, visit);
      var events := visited.events + P.Feed(visited.parser, P.ESC).events;
      && A.NoneLeave(events)
      && Write(t, env, AltBytes(true) + visit + AltBytes(false)).screen ==
         V.ResetMode(ApplyAll(V.SetMode(t.screen, 1049), env, events), 1049)
  {
    var entered := P.FeedAll(t.parser, AltBytes(true));
    var visited := P.FeedAll(entered.parser, visit);
    var cut := P.Feed(visited.parser, P.ESC).events;
    AltIsParsed(t.parser, true);
    P.RunsStayTidy(entered.parser, visit);
    EscapeNeverLeaves(visited.parser);
    VisitEvents(t, env, visit);
    AltIsApplied(t.screen, env, true);
    AltIsApplied(ApplyAll(V.SetMode(t.screen, 1049), env, visited.events + cut), env, false);
  }

  /** From a terminal at rest on the main screen: the bytes that enter the alternate
      screen, any bytes at all whose events neither leave it nor reset the terminal, cut
      off anywhere, and the bytes that leave by mode 1049. Cells, wrap flags, cursor, pen
      and scroll region of the main screen are what they were. */
  lemma AlternateVisitIsIsolated(t: Terminal, env: Env, visit: seq<Byte>)
    requires AtRest(t.parser) && I.WellFormed(t.screen) && !t.screen.alt.active
    requires A.NoneLeave(P.FeedAll(P.FeedAll(t.parser, AltBytes(true)).parser, visit).events)
    ensures
      var s := t.screen;
      var z := Write(t, env, AltBytes(true) + visit + AltBytes(false)).screen;
      && !z.alt.active && z.cells == s.cells && z.wrapped == s.wrapped
      && z.cur.y == s.cur.y && z.cur.x == s.cur.x && z.pen.style == s.pen.style
      && z.margins.top == s.margins.top && z.margins.bottom == s.margins.bottom
  {
    var visited := P.FeedAll(P.FeedAll(t.parser, AltBytes(true)).parser, visit);
    VisitIsASession(t, env, visit);
    A.AlternateSessionIsIsolated(t.screen, env, 1049, visited.events + P.Feed(visited.parser, P.ESC).events);
  }
}
