/** The byte-at-a-time parser as a machine from bytes to events. What it remembers
    between bytes never leaks past the next ESC. */
module Parser {
  import opened Prelude
  import opened CsiParams
  import opened VtTable

  const MAX_INTERMEDIATES := 2
  const MAX_OSC := 4096
  const REPLACEMENT := 0xFFFD
  const ESC: Byte := 0x1B
  const CAN: Byte := 0x18
  const SUB: Byte := 0x1A
  const ST: Byte := 0x9C
  const BEL: Byte := 0x07

  datatype Event =
    | Ascii(b: Byte)
    | Glyph(rune: nat)
    | Exec(b: Byte)
    | Esc(intermediates: seq<Byte>, final: Byte)
    | Csi(groups: seq<seq<nat>>, intermediates: seq<Byte>, marker: Byte, final: Byte)
    | DcsHook(intermediates: seq<Byte>, final: Byte)
    | DcsPut(b: Byte)
    | DcsUnhook
    | Osc(payload: seq<Byte>)

  /** `need` is the length of the UTF-8 sequence being read, 0 when none is. */
  datatype Parser = Parser(
    state: State, params: Params, intermediates: seq<Byte>, marker: Byte,
    need: nat, got: seq<Byte>, osc: seq<Byte>)

  const START := Parser(GROUND, CLEARED, [], 0, 0, [], [])

  datatype Output = Output(parser: Parser, events: seq<Event>)

  // --- UTF-8 -------------------------------------------------------------------------

  function Low(b: Byte, bits: nat): nat
    requires bits > 0
  {
    (b as int) % bits
  }

  function Decode(buf: seq<Byte>): nat {
    var r: nat :=
      if |buf| == 2 then Low(buf[0], 32) * 64 + Low(buf[1], 64)
      else if |buf| == 3 then Low(buf[0], 16) * 4096 + Low(buf[1], 64) * 64 + Low(buf[2], 64)
      else if |buf| == 4 then Low(buf[0], 8) * 262144 + Low(buf[1], 64) * 4096 + Low(buf[2], 64) * 64 + Low(buf[3], 64)
      else 0;
    var least := if |buf| == 2 then 0x80 else if |buf| == 3 then 0x800 else if |buf| == 4 then 0x10000 else 1;
    if r < least || r > 0x10FFFF || 0xD800 <= r <= 0xDFFF || r == 0xFFFF then REPLACEMENT else r
  }

  function PrintByte(p: Parser, b: Byte): Output {
    if b < 0x80 then Output(p, [Ascii(b)])
    else if b < 0xC0 || b >= 0xF8 then Output(p, [Glyph(REPLACEMENT)])
    else Output(p.(need := if b < 0xE0 then 2 else if b < 0xF0 then 3 else 4, got := [b]), [])
  }

  // --- one byte ------------------------------------------------------------------------

  function DoAction(p: Parser, act: Action, b: Byte): Output {
    match act
    case Print => PrintByte(p, b)
    case Execute => Output(p, [Exec(b)])
    case Clear => Output(p.(params := CLEARED, intermediates := [], marker := 0), [])
    case Collect =>
      Output(if |p.intermediates| < MAX_INTERMEDIATES then p.(intermediates := p.intermediates + [b]) else p, [])
    case Param => Output(WithParams(p, b as char), [])
    case Subparam => Output(WithParams(p, ':'), [])
    case Marker => Output(p.(marker := b), [])
    case EscDispatch => Output(p, [Esc(p.intermediates, b)])
    case CsiDispatch =>
      var q := Finalized(p);
      Output(q, [Csi(q.params.groups, q.intermediates, q.marker, b)])
    case Hook => Output(Finalized(p), [DcsHook(p.intermediates, b)])
    case Put => Output(p, [DcsPut(b)])
    case Unhook => Output(p, [DcsUnhook])
    case OscStart => Output(p.(osc := []), [])
    case OscPut => Output(if |p.osc| < MAX_OSC then p.(osc := p.osc + [b]) else p, [])
    case OscEnd => Output(p, [Osc(p.osc)])
    case Nop => Output(p, [])
  }

  /** Before the first ESC the program holds no parameter group at all; nothing reads
      the groups until a Clear has made one. */
  function WithParams(p: Parser, c: char): Parser {
    if p.params.groups == [] then p else p.(params := CsiParams.Feed(p.params, c))
  }

  function Finalized(p: Parser): Parser {
    if p.params.groups == [] then p else p.(params := Finalize(p.params))
  }

  /** One table step: exit action (not on CAN or SUB), action, entry action. */
  function Move(p: Parser, b: Byte): Output {
    match Entry(p.state, b)
    case Unset => Output(p, [])
    case Go(act, next) =>
      if next == p.state then DoAction(p, act, b)
      else
        var left := if b == CAN || b == SUB then Output(p, []) else DoAction(p, ExitAction(p.state), b);
        var acted := DoAction(left.parser, act, b);
        var entered := DoAction(acted.parser.(state := next), EntryAction(next), b);
        Output(entered.parser, left.events + acted.events + entered.events)
  }

  function Feed(p: Parser, b: Byte): Output {
    if p.need > 0 && 0x80 <= b < 0xC0 then
      var got := p.got + [b];
      if |got| == p.need then Output(p.(need := 0, got := []), [Glyph(Decode(got))])
      else Output(p.(got := got), [])
    else if p.need > 0 then
      var o := Move(p.(need := 0, got := []), b);
      Output(o.parser, [Glyph(REPLACEMENT)] + o.events)
    else Move(p, b)
  }

  /** Any byte machine, run over a byte string. */
  function Fold(step: (Parser, Byte) -> Output, p: Parser, bytes: seq<Byte>): Output
    decreases |bytes|
  {
    if bytes == [] then Output(p, [])
    else
      var o := step(p, bytes[0]);
      var rest := Fold(step, o.parser, bytes[1..]);
      Output(rest.parser, o.events + rest.events)
  }

  lemma {:induction false} FoldAppend(step: (Parser, Byte) -> Output, p: Parser, a: seq<Byte>, b: seq<Byte>)
    ensures
      var first := Fold(step, p, a);
      var second := Fold(step, first.parser, b);
      Fold(step, p, a + b) == Output(second.parser, first.events + second.events)
    decreases |a|
  {
    if a == [] {
      assert a + b == b;
    } else {
      assert (a + b)[1..] == a[1..] + b;
      FoldAppend(step, step(p, a[0]).parser, a[1..], b);
    }
  }

  function FeedAll(p: Parser, bytes: seq<Byte>): Output { Fold(Feed, p, bytes) }

  lemma FoldOne(step: (Parser, Byte) -> Output, p: Parser, bytes: seq<Byte>)
    requires |bytes| == 1
    ensures Fold(step, p, bytes) == step(p, bytes[0])
  {
    var o := step(p, bytes[0]);
    assert bytes[1..] == [];
    assert o.events + [] == o.events;
  }

  lemma FeedAllOne(p: Parser, b: Byte)
    ensures FeedAll(p, [b]) == Feed(p, b)
  {
    FoldOne(Feed, p, [b]);
  }

  // --- what every reachable state keeps --------------------------------------------------

  /** A sequence still being collected belongs to ground; the escape state starts clean. */
  predicate Tidy(p: Parser) {
    && (if p.need > 0 then p.state == GROUND && |p.got| < p.need <= 4 else p.got == [])
    && (p.state == ESCAPE ==> p.params == CLEARED && p.intermediates == [] && p.marker == 0)
    && (Numbering(p.state) ==> p.params.groups != [])
    && |p.intermediates| <= MAX_INTERMEDIATES
    && |p.osc| <= MAX_OSC
  }

  predicate Numbering(s: State) { CSI_ENTRY <= s <= CSI_INTERMEDIATE || DCS_ENTRY <= s <= DCS_INTERMEDIATE }

  /** What the table says about where each kind of action can happen. */
  lemma TableShape(s: State, b: Byte)
    ensures
      var t := Entry(s, b);
      && t.Go?
      && (t.act == Print ==> s == GROUND && t.next == GROUND)
      && (t.act == Param || t.act == Subparam || t.act == Marker ==> Numbering(s) && Numbering(t.next))
      && (s == ESCAPE && t.next == ESCAPE ==> t.act == Execute || t.act == Nop)
      && (Numbering(t.next) ==> Numbering(s) || EntryAction(t.next) == Clear)
      && (t.act == Collect ==> Reads(s) && Reads(t.next) && t.next != ESCAPE)
      && (t.act == OscPut ==> s == OSC_STRING && t.next == OSC_STRING)
      && (t.act == EscDispatch || t.act == CsiDispatch ==> Reads(s) && t.next == GROUND)
      && (t.act == CsiDispatch ==> Numbering(s))
      && t.act !in {Clear, Hook, Unhook, OscStart, OscEnd}
      && (t.next == DCS_PASSTHROUGH ==> s == DCS_PASSTHROUGH || Numbering(s))
      && (Reads(t.next) ==> Reads(s) || EntryAction(t.next) == Clear)
  {}

  lemma MoveStaysTidy(p: Parser, b: Byte)
    requires Tidy(p) && p.need == 0
    ensures Tidy(Move(p, b).parser)
  {
    TableShape(p.state, b);
    ActionBounds(p, Entry(p.state, b).act, b);
  }

  /** No action but Print starts a UTF-8 sequence, and none overfills a buffer. */
  lemma ActionBounds(p: Parser, act: Action, b: Byte)
    ensures
      var q := DoAction(p, act, b).parser;
      && q.state == p.state
      && (act != Print ==> q.need == p.need && q.got == p.got)
      && (act == Print && p.need == 0 && p.got == [] ==> if q.need > 0 then |q.got| < q.need <= 4 else q.got == [])
      && (|p.intermediates| <= MAX_INTERMEDIATES ==> |q.intermediates| <= MAX_INTERMEDIATES)
      && (|p.osc| <= MAX_OSC ==> |q.osc| <= MAX_OSC)
      && (p.params.groups != [] ==> q.params.groups != [])
      && (act == Execute || act == Nop || act == Unhook || act == OscEnd ==> q == p)
      && (act == Clear ==> q.params == CLEARED && q.intermediates == [] && q.marker == 0)
  {}

  lemma FeedStaysTidy(p: Parser, b: Byte)
    requires Tidy(p)
    ensures Tidy(Feed(p, b).parser)
  {
    if p.need == 0 || b < 0x80 || b >= 0xC0 { MoveStaysTidy(p.(need := 0, got := []), b); }
    if p.need == 0 { MoveStaysTidy(p, b); }
  }

  lemma {:induction false} RunsStayTidy(p: Parser, bytes: seq<Byte>)
    requires Tidy(p)
    ensures Tidy(FeedAll(p, bytes).parser)
    decreases |bytes|
  {
    if bytes != [] {
      FeedStaysTidy(p, bytes[0]);
      RunsStayTidy(Feed(p, bytes[0]).parser, bytes[1..]);
    }
  }

  // --- self-synchronisation -----------------------------------------------------------------

  /** States in which parameters, intermediates and marker are still to be read. */
  predicate Reads(s: State) { ESCAPE <= s <= CSI_INTERMEDIATE || DCS_ENTRY <= s <= DCS_INTERMEDIATE }

  /** Two parsers that differ only in what neither will ever look at. */
  predicate Agree(p: Parser, q: Parser) {
    && p.state == q.state && p.need == q.need && p.got == q.got
    && (Reads(p.state) ==> p.params == q.params && p.intermediates == q.intermediates && p.marker == q.marker)
    && (p.state == OSC_STRING ==> p.osc == q.osc)
  }

  predicate SameSequence(p: Parser, q: Parser) {
    p.params == q.params && p.intermediates == q.intermediates && p.marker == q.marker
  }

  predicate ReadsSequence(act: Action) {
    act in {Collect, Param, Subparam, Marker, EscDispatch, CsiDispatch, Hook}
  }

  /** An action tells two parsers apart only by what it reads. */
  lemma ActionAgrees(p: Parser, q: Parser, act: Action, b: Byte, sequence: bool, osc: bool)
    requires p.state == q.state && p.need == q.need && p.got == q.got
    requires sequence ==> SameSequence(p, q)
    requires osc ==> p.osc == q.osc
    requires ReadsSequence(act) ==> sequence
    requires act == OscEnd ==> osc
    ensures
      var p', q' := DoAction(p, act, b), DoAction(q, act, b);
      && p'.events == q'.events
      && p'.parser.state == q'.parser.state && p'.parser.need == q'.parser.need && p'.parser.got == q'.parser.got
      && (sequence || act == Clear ==> SameSequence(p'.parser, q'.parser))
      && (osc || act == OscStart ==> p'.parser.osc == q'.parser.osc)
  {}

  lemma MoveAgrees(p: Parser, q: Parser, b: Byte)
    requires Agree(p, q)
    ensures Move(p, b).events == Move(q, b).events
    ensures Agree(Move(p, b).parser, Move(q, b).parser)
  {
    TableShape(p.state, b);
    if Entry(p.state, b).next == p.state {
      ActionAgrees(p, q, Entry(p.state, b).act, b, Reads(p.state), p.state == OSC_STRING);
    } else {
      LeavingAgrees(p, q, b);
    }
  }

  lemma LeavingAgrees(p: Parser, q: Parser, b: Byte)
    requires Agree(p, q) && Entry(p.state, b).Go? && Entry(p.state, b).next != p.state
    ensures Move(p, b).events == Move(q, b).events
    ensures Agree(Move(p, b).parser, Move(q, b).parser)
  {
    TableShape(p.state, b);
    var t := Entry(p.state, b);
    var sequence, osc := Reads(p.state), p.state == OSC_STRING;
    var exit := if b == CAN || b == SUB then Nop else ExitAction(p.state);
    ActionAgrees(p, q, exit, b, sequence, osc);
    var p1, q1 := DoAction(p, exit, b).parser, DoAction(q, exit, b).parser;
    ActionAgrees(p1, q1, t.act, b, sequence, osc);
    var p2, q2 := DoAction(p1, t.act, b).parser, DoAction(q1, t.act, b).parser;
    ActionAgrees(p2.(state := t.next), q2.(state := t.next), EntryAction(t.next), b, sequence, osc);
  }

  lemma FeedAgrees(p: Parser, q: Parser, b: Byte)
    requires Tidy(p) && Tidy(q) && Agree(p, q)
    ensures Feed(p, b).events == Feed(q, b).events
    ensures Agree(Feed(p, b).parser, Feed(q, b).parser)
  {
    MoveAgrees(p, q, b);
    if p.need > 0 { MoveAgrees(p.(need := 0, got := []), q.(need := 0, got := []), b); }
  }

  lemma {:induction false} RunsAgree(p: Parser, q: Parser, bytes: seq<Byte>)
    requires Tidy(p) && Tidy(q) && Agree(p, q)
    ensures FeedAll(p, bytes).events == FeedAll(q, bytes).events
    ensures Agree(FeedAll(p, bytes).parser, FeedAll(q, bytes).parser)
    decreases |bytes|
  {
    if bytes != [] {
      FeedAgrees(p, q, bytes[0]);
      FeedStaysTidy(p, bytes[0]);
      FeedStaysTidy(q, bytes[0]);
      RunsAgree(Feed(p, bytes[0]).parser, Feed(q, bytes[0]).parser, bytes[1..]);
    }
  }

  lemma EscapeClears(p: Parser)
    requires Tidy(p)
    ensures
      var e := Feed(p, ESC).parser;
      e.state == ESCAPE && e.params == CLEARED && e.intermediates == [] && e.marker == 0 && e.need == 0
  {}

  /** Whatever two parsers have read, after an ESC they produce the same events for the
      same bytes, for ever. */
  lemma SelfSynchronises(before: seq<Byte>, other: seq<Byte>, after: seq<Byte>)
    ensures
      var p := FeedAll(START, before + [ESC]).parser;
      var q := FeedAll(START, other + [ESC]).parser;
      && FeedAll(p, after).events == FeedAll(q, after).events
      && Agree(FeedAll(p, after).parser, FeedAll(q, after).parser)
  {
    var p, q := FeedAll(START, before).parser, FeedAll(START, other).parser;
    RunsStayTidy(START, before);
    RunsStayTidy(START, other);
    EscapeClears(p);
    EscapeClears(q);
    FeedStaysTidy(p, ESC);
    FeedStaysTidy(q, ESC);
    FoldAppend(Feed, START, before, [ESC]);
    FoldAppend(Feed, START, other, [ESC]);
    FeedAllOne(p, ESC);
    FeedAllOne(q, ESC);
    RunsAgree(Feed(p, ESC).parser, Feed(q, ESC).parser, after);
  }

  // --- aborted strings -------------------------------------------------------------------------

  /** Bytes a string payload can hold: none of those that end it. */
  predicate OscPayload(bytes: seq<Byte>) {
    forall i :: 0 <= i < |bytes| ==> bytes[i] !in {BEL, CAN, SUB, ESC, ST}
  }

  predicate DcsPayload(bytes: seq<Byte>) {
    forall i :: 0 <= i < |bytes| ==> bytes[i] !in {CAN, SUB, ESC, ST}
  }

  lemma {:induction false} OscCollectsSilently(p: Parser, payload: seq<Byte>)
    requires Tidy(p) && p.state == OSC_STRING && OscPayload(payload)
    ensures
      var o := FeedAll(p, payload);
      o.events == [] && o.parser == p.(osc := (p.osc + payload)[..Min(MAX_OSC, |p.osc| + |payload|)])
    decreases |payload|
  {
    if payload == [] {
      assert p.osc + payload == p.osc;
    } else {
      var q := Feed(p, payload[0]).parser;
      assert payload[0] !in {BEL, CAN, SUB, ESC, ST};
      FeedStaysTidy(p, payload[0]);
      OscCollectsSilently(q, payload[1..]);
      assert p.osc + payload == (p.osc + [payload[0]]) + payload[1..];
    }
  }

  function DcsBytes(payload: seq<Byte>): seq<Event> {
    if payload == [] then []
    else (if payload[0] == 0x7F then [] else [DcsPut(payload[0])]) + DcsBytes(payload[1..])
  }

  lemma {:induction false} DcsCollects(p: Parser, payload: seq<Byte>)
    requires Tidy(p) && p.state == DCS_PASSTHROUGH && DcsPayload(payload)
    ensures FeedAll(p, payload) == Output(p, DcsBytes(payload))
    decreases |payload|
  {
    if payload != [] {
      assert payload[0] !in {CAN, SUB, ESC, ST};
      assert Feed(p, payload[0]).parser == p;
      DcsCollects(p, payload[1..]);
    }
  }

  lemma AbortReturnsToGround(p: Parser, abort: Byte)
    requires Tidy(p) && (p.state == OSC_STRING || p.state == DCS_PASSTHROUGH)
    requires abort == CAN || abort == SUB
    ensures Feed(p, abort) == Output(p.(state := GROUND), [Exec(abort)])
  {}

  /** An operating-system command that CAN or SUB cuts short might as well not have been
      sent: all that is left of it is the control itself. */
  lemma AbortedOscIsInvisible(p: Parser, payload: seq<Byte>, abort: Byte, rest: seq<Byte>)
    requires Tidy(p) && p.state == GROUND && p.need == 0
    requires OscPayload(payload) && (abort == CAN || abort == SUB)
    ensures FeedAll(p, [ESC, ']' as int] + payload + [abort] + rest).events == [Exec(abort)] + FeedAll(p, rest).events
  {
    OpensOsc(p);
    var open: seq<Byte> := [ESC, ']' as int];
    var o := FeedAll(p, open).parser;
    OscCollectsSilently(o, payload);
    var c := FeedAll(o, payload).parser;
    RunsStayTidy(o, payload);
    AbortReturnsToGround(c, abort);
    var g := Feed(c, abort).parser;
    FeedStaysTidy(c, abort);
    assert Agree(p, g);
    RunsAgree(p, g, rest);
    FeedAllOne(c, abort);
    FoldFour(Feed, p, open, payload, [abort], rest);
  }

  /** ESC ] at rest opens an empty string, and delivers nothing. */
  lemma OpensOsc(p: Parser)
    requires Tidy(p) && p.state == GROUND && p.need == 0
    ensures
      var o := FeedAll(p, [ESC, ']' as int]);
      && o.events == [] && Tidy(o.parser)
      && o.parser.state == OSC_STRING && o.parser.osc == [] && o.parser.need == 0 && o.parser.got == []
  {
    var open: seq<Byte> := [ESC, ']' as int];
    assert open[1..] == [']' as int];
    FeedAllOne(Feed(p, ESC).parser, ']' as int);
    RunsStayTidy(p, open);
  }

  lemma FoldFour(step: (Parser, Byte) -> Output, p: Parser, a: seq<Byte>, b: seq<Byte>, c: seq<Byte>, d: seq<Byte>)
    ensures
      var o1 := Fold(step, p, a);
      var o2 := Fold(step, o1.parser, b);
      var o3 := Fold(step, o2.parser, c);
      var o4 := Fold(step, o3.parser, d);
      Fold(step, p, a + b + c + d) == Output(o4.parser, o1.events + o2.events + o3.events + o4.events)
  {
    FoldAppend(step, p, a, b);
    FoldAppend(step, p, a + b, c);
    FoldAppend(step, p, a + b + c, d);
  }

  /** A device-control string cut short never reaches its unhook; what follows is read
      as if from a parser that had never seen it. */
  lemma AbortedDcsNeverUnhooks(p: Parser, payload: seq<Byte>, abort: Byte, rest: seq<Byte>)
    requires Tidy(p) && p.state == DCS_PASSTHROUGH
    requires DcsPayload(payload) && (abort == CAN || abort == SUB)
    ensures FeedAll(p, payload + [abort] + rest).events ==
            DcsBytes(payload) + [Exec(abort)] + FeedAll(START, rest).events
  {
    DcsCollects(p, payload);
    AbortReturnsToGround(p, abort);
    var g := p.(state := GROUND);
    FeedAllOne(p, abort);
    FeedStaysTidy(p, abort);
    assert Agree(g, START);
    RunsAgree(g, START, rest);
    FoldAppend(Feed, p, payload, [abort]);
    FoldAppend(Feed, p, payload + [abort], rest);
  }
}
