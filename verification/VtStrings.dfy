/** What the parser delivers for each kind of thing a program sends, whatever it was reading
    before: escapes, commands, device-control strings, and the bytes of a code point. */
module VtStrings {
  import opened Prelude
  import opened VtTable
  import opened VtSequences
  import C = CsiParams
  import P = Parser
  import R = RowRender

  // --- escapes -------------------------------------------------------------------------------

  predicate Intermediate(b: Byte) { 0x20 <= b <= 0x2F }

  /** The bytes that end an escape at once; the others open something longer. */
  predicate EndsEscape(b: Byte) { 0x30 <= b <= 0x7E && b !in [0x50, 0x58, 0x5B, 0x5D, 0x5E, 0x5F] }

  lemma Escapes(p: P.Parser)
    requires P.Tidy(p)
    ensures
      var e := P.Feed(p, P.ESC).parser;
      P.Tidy(e) && e.state == ESCAPE && e.need == 0 && e.got == [] && e.intermediates == [] && e.params == C.CLEARED && e.marker == 0
  {
    P.FeedStaysTidy(p, P.ESC);
    P.EscapeClears(p);
  }

  lemma TwoBytes(p: P.Parser, a: Byte, b: Byte)
    ensures
      var q := P.Feed(p, a);
      var r := P.Feed(q.parser, b);
      P.FeedAll(p, [a, b]) == P.Output(r.parser, q.events + r.events)
  {
    assert [a, b] + [] == [a, b];
    FeedTwo(p, a, b, []);
    assert P.Feed(P.Feed(p, a).parser, b).events + [] == P.Feed(P.Feed(p, a).parser, b).events;
  }

  /** ESC and a final byte are one escape. */
  lemma EscIsParsed(p: P.Parser, final: Byte)
    requires P.Tidy(p) && EndsEscape(final)
    ensures
      var o := P.FeedAll(p, [P.ESC, final]);
      o.events == P.Feed(p, P.ESC).events + [P.Event.Esc([], final)] && AtRest(o.parser)
  {
    Escapes(p);
    TwoBytes(p, P.ESC, final);
    P.FeedStaysTidy(P.Feed(p, P.ESC).parser, final);
  }

  /** ... and with an intermediate byte between, whatever the final byte. */
  lemma EscWithIsParsed(p: P.Parser, i: Byte, final: Byte)
    requires P.Tidy(p) && Intermediate(i) && 0x30 <= final <= 0x7E
    ensures
      var o := P.FeedAll(p, [P.ESC, i] + [final]);
      o.events == P.Feed(p, P.ESC).events + [P.Event.Esc([i], final)] && AtRest(o.parser)
  {
    Escapes(p);
    var e := P.Feed(p, P.ESC).parser;
    var collected := P.Feed(e, i);
    assert collected == P.Output(e.(state := ESCAPE_INTERMEDIATE, intermediates := [i]), []);
    FeedTwo(p, P.ESC, i, [final]);
    P.FeedAllOne(collected.parser, final);
    P.FeedStaysTidy(e, i);
    P.FeedStaysTidy(collected.parser, final);
  }

  // --- operating-system commands ---------------------------------------------------------------

  function Kept(payload: seq<Byte>): seq<Byte> { payload[..Min(4096, |payload|)] }

  lemma OpensCommand(p: P.Parser)
    requires P.Tidy(p)
    ensures
      var o := P.FeedAll(p, [P.ESC, 0x5D]);
      && o.events == P.Feed(p, P.ESC).events && P.Tidy(o.parser)
      && o.parser.state == OSC_STRING && o.parser.osc == [] && o.parser.need == 0
  {
    Escapes(p);
    TwoBytes(p, P.ESC, 0x5D);
    P.FeedStaysTidy(P.Feed(p, P.ESC).parser, 0x5D);
  }

  lemma EndsCommand(p: P.Parser, end: Byte)
    requires P.Tidy(p) && p.state == OSC_STRING && p.need == 0 && (end == P.BEL || end == P.ST)
    ensures P.Feed(p, end).events == [P.Osc(p.osc)] && AtRest(P.Feed(p, end).parser)
  {
    P.FeedStaysTidy(p, end);
  }

  /** A command ended by BEL or the one-byte ST is one event: its payload, 4096 bytes of it
      at most. */
  lemma OscIsParsed(p: P.Parser, payload: seq<Byte>, end: Byte)
    requires P.Tidy(p) && P.OscPayload(payload) && (end == P.BEL || end == P.ST)
    ensures
      var o := P.FeedAll(p, [P.ESC, 0x5D] + payload + [end]);
      o.events == P.Feed(p, P.ESC).events + [P.Osc(Kept(payload))] && AtRest(o.parser)
  {
    OpensCommand(p);
    var open := P.FeedAll(p, [P.ESC, 0x5D]).parser;
    P.OscCollectsSilently(open, payload);
    assert [] + payload == payload;
    P.RunsStayTidy(open, payload);
    var full := P.FeedAll(open, payload).parser;
    EndsCommand(full, end);
    P.FeedAllOne(full, end);
    P.FoldAppend(P.Feed, p, [P.ESC, 0x5D], payload);
    P.FoldAppend(P.Feed, p, [P.ESC, 0x5D] + payload, [end]);
  }

  /** Ended by ESC and a backslash it is delivered at the ESC. */
  lemma OscEndedByEscape(p: P.Parser)
    requires P.Tidy(p) && p.state == OSC_STRING
    ensures
      var o := P.FeedAll(p, [P.ESC, 0x5C]);
      o.events == [P.Osc(p.osc), P.Event.Esc([], 0x5C)] && AtRest(o.parser)
  {
    Escapes(p);
    TwoBytes(p, P.ESC, 0x5C);
    P.FeedStaysTidy(P.Feed(p, P.ESC).parser, 0x5C);
  }

  // --- device-control strings --------------------------------------------------------------------

  lemma OpensDevice(p: P.Parser, final: Byte)
    requires P.Tidy(p) && 0x40 <= final <= 0x7E
    ensures
      var o := P.FeedAll(p, [P.ESC, 0x50] + [final]);
      && o.events == P.Feed(p, P.ESC).events + [P.DcsHook([], final)] && P.Tidy(o.parser)
      && o.parser.state == DCS_PASSTHROUGH && o.parser.need == 0
  {
    Escapes(p);
    var e := P.Feed(p, P.ESC).parser;
    FeedTwo(p, P.ESC, 0x50, [final]);
    var d := P.Feed(e, 0x50);
    assert d.events == [] && d.parser.state == DCS_ENTRY;
    P.FeedAllOne(d.parser, final);
    P.FeedStaysTidy(e, 0x50);
    P.FeedStaysTidy(d.parser, final);
  }

  lemma EndsDevice(p: P.Parser)
    requires P.Tidy(p) && p.state == DCS_PASSTHROUGH && p.need == 0
    ensures P.Feed(p, P.ST).events == [P.DcsUnhook] && AtRest(P.Feed(p, P.ST).parser)
  {
    P.FeedStaysTidy(p, P.ST);
  }

  /** Hooked at the final byte, put byte by byte, unhooked at the end. */
  lemma DcsIsParsed(p: P.Parser, final: Byte, payload: seq<Byte>)
    requires P.Tidy(p) && 0x40 <= final <= 0x7E && P.DcsPayload(payload)
    ensures
      var o := P.FeedAll(p, [P.ESC, 0x50] + [final] + payload + [P.ST]);
      && o.events == P.Feed(p, P.ESC).events + [P.DcsHook([], final)] + P.DcsBytes(payload) + [P.DcsUnhook]
      && AtRest(o.parser)
  {
    OpensDevice(p, final);
    var open := P.FeedAll(p, [P.ESC, 0x50] + [final]).parser;
    P.DcsCollects(open, payload);
    EndsDevice(open);
    P.FeedAllOne(open, P.ST);
    P.FoldAppend(P.Feed, p, [P.ESC, 0x50] + [final], payload);
    P.FoldAppend(P.Feed, p, [P.ESC, 0x50] + [final] + payload, [P.ST]);
  }

  // --- strings nobody reads ----------------------------------------------------------------------

  lemma {:induction false} StringIsSilent(p: P.Parser, payload: seq<Byte>)
    requires P.Tidy(p) && p.state == SOS_PM_APC_STRING && P.DcsPayload(payload)
    ensures P.FeedAll(p, payload) == P.Output(p, [])
    decreases |payload|
  {
    if payload != [] {
      assert payload[0] !in {P.CAN, P.SUB, P.ESC, P.ST};
      assert P.Feed(p, payload[0]) == P.Output(p, []);
      StringIsSilent(p, payload[1..]);
    }
  }

  /** Start of string, privacy message and application program command: whatever they hold,
      nothing is delivered. */
  lemma UnreadStringsAreSilent(p: P.Parser, open: Byte, payload: seq<Byte>)
    requires P.Tidy(p) && open in [0x58, 0x5E, 0x5F] && P.DcsPayload(payload)
    ensures
      var o := P.FeedAll(p, [P.ESC, open] + payload + [P.ST]);
      o.events == P.Feed(p, P.ESC).events && AtRest(o.parser)
  {
    Escapes(p);
    TwoBytes(p, P.ESC, open);
    P.FeedStaysTidy(P.Feed(p, P.ESC).parser, open);
    var s := P.FeedAll(p, [P.ESC, open]).parser;
    StringIsSilent(s, payload);
    P.FeedStaysTidy(s, P.ST);
    P.FeedAllOne(s, P.ST);
    P.FoldAppend(P.Feed, p, [P.ESC, open], payload);
    P.FoldAppend(P.Feed, p, [P.ESC, open] + payload, [P.ST]);
  }

  // --- controls in between -----------------------------------------------------------------------

  /** Within a sequence whose end is still to come, strings apart. */
  predicate InSequence(s: State) { ESCAPE <= s <= DCS_INTERMEDIATE || s == DCS_IGNORE }

  /** There a one-byte introducer opens what ESC and its own letter open at rest. */
  lemma OneByteIntroducers(p: P.Parser, b: Byte)
    requires P.Tidy(p) && InSequence(p.state) && b in [0x90, 0x98, 0x9B, 0x9D, 0x9E, 0x9F]
    ensures P.Feed(p, b).events == []
    ensures P.Feed(p, b).parser.state == P.FeedAll(P.START, [P.ESC, b - 0x40]).parser.state != p.state
            || P.Feed(p, b).parser == p
  {
    TwoBytes(P.START, P.ESC, b - 0x40);
  }

  /** At rest the same bytes are no text either: each is one replacement glyph. */
  lemma StrayHighBytes(p: P.Parser, b: Byte)
    requires AtRest(p) && (0x80 <= b < 0xC0 || b >= 0xF8)
    ensures P.Feed(p, b) == P.Output(p, [P.Glyph(0xFFFD)])
  {}

  /** A control character inside a control sequence acts at once and leaves the sequence as
      it was. */
  lemma ControlsActInside(p: P.Parser, b: Byte)
    requires P.Tidy(p) && ESCAPE <= p.state <= CSI_IGNORE && b < 0x20 && b != P.CAN && b != P.SUB && b != P.ESC
    ensures P.Feed(p, b) == P.Output(p, [P.Event.Exec(b)])
  {}

  /** CAN and SUB end any sequence there and then, and are delivered themselves. */
  lemma CancelEnds(p: P.Parser, b: Byte)
    requires P.Tidy(p) && p.state != GROUND && (b == P.CAN || b == P.SUB)
    ensures P.Feed(p, b).events == [P.Event.Exec(b)] && AtRest(P.Feed(p, b).parser)
  {
    P.FeedStaysTidy(p, b);
  }

  lemma {:induction false} IgnoredSilently(p: P.Parser, rest: seq<Byte>)
    requires P.Tidy(p) && p.state == CSI_IGNORE && p.need == 0 && forall k :: 0 <= k < |rest| ==> 0x20 <= rest[k] <= 0x3F
    ensures P.FeedAll(p, rest) == P.Output(p, [])
    decreases |rest|
  {
    if rest != [] {
      assert 0x20 <= rest[0] <= 0x3F;
      assert P.Feed(p, rest[0]) == P.Output(p, []);
      IgnoredSilently(p, rest[1..]);
    }
  }

  /** A marker that does not come first spoils the sequence: it is read to its final byte and
      delivers nothing. */
  lemma LateMarkerSpoils(p: P.Parser, marker: Byte, rest: seq<Byte>, final: Byte)
    requires P.Tidy(p) && p.state == CSI_PARAM && p.need == 0 && 0x3C <= marker <= 0x3F && 0x40 <= final <= 0x7E
    requires forall k :: 0 <= k < |rest| ==> 0x20 <= rest[k] <= 0x3F
    ensures
      var o := P.FeedAll(p, [marker] + rest + [final]);
      o.events == [] && AtRest(o.parser)
  {
    var q := P.Feed(p, marker).parser;
    P.FeedAllOne(p, marker);
    P.FeedStaysTidy(p, marker);
    IgnoredSilently(q, rest);
    P.FeedAllOne(q, final);
    P.FeedStaysTidy(q, final);
    P.FoldAppend(P.Feed, p, [marker], rest);
    P.FoldAppend(P.Feed, p, [marker] + rest, [final]);
  }

  // --- control sequences with an intermediate byte -----------------------------------------------

  lemma CollectsOne(p: P.Parser, i: Byte)
    requires P.Tidy(p) && (p.state == CSI_ENTRY || p.state == CSI_PARAM) && p.need == 0 && p.intermediates == [] && Intermediate(i)
    ensures P.Feed(p, i) == P.Output(p.(state := CSI_INTERMEDIATE, intermediates := [i]), [])
  {}

  lemma DispatchesWith(p: P.Parser, final: Byte)
    requires P.Tidy(p) && p.state == CSI_INTERMEDIATE && p.need == 0 && 0x40 <= final <= 0x7E
    ensures
      p.params.groups != [] &&
      var o := P.Feed(p, final);
      o.events == [P.Csi(C.Finalize(p.params).groups, p.intermediates, p.marker, final)] && AtRest(o.parser)
  {
    P.FeedStaysTidy(p, final);
  }

  lemma ParamsThenWith(p: P.Parser, text: string, i: Byte, final: Byte)
    requires P.Tidy(p) && p.state == CSI_ENTRY && p.need == 0 && p.params == C.CLEARED && p.intermediates == [] && p.marker == 0
    requires ParamText(text) && Intermediate(i) && 0x40 <= final <= 0x7E
    ensures
      var o := P.FeedAll(p, TextBytes(text) + [i, final]);
      o.events == [P.Csi(C.Parse(text), [i], 0, final)] && AtRest(o.parser)
  {
    ParamsAreRead(p, text);
    P.RunsStayTidy(p, TextBytes(text));
    var read := P.FeedAll(p, TextBytes(text)).parser;
    CollectsOne(read, i);
    P.FeedStaysTidy(read, i);
    DispatchesWith(P.Feed(read, i).parser, final);
    TwoBytes(read, i, final);
    P.FoldAppend(P.Feed, p, TextBytes(text), [i, final]);
  }

  /** Parameters, one intermediate byte and a final byte are one event. */
  lemma CsiWithIsParsed(p: P.Parser, text: string, i: Byte, final: Byte)
    requires P.Tidy(p) && ParamText(text) && Intermediate(i) && 0x40 <= final <= 0x7E
    ensures
      var o := P.FeedAll(p, [P.ESC, 0x5B] + (TextBytes(text) + [i, final]));
      && o.events == P.Feed(p, P.ESC).events + [P.Csi(C.Parse(text), [i], 0, final)]
      && AtRest(o.parser)
  {
    Introduced(p);
    var e := P.Feed(p, P.ESC).parser;
    P.FeedStaysTidy(p, P.ESC);
    P.FeedStaysTidy(e, 0x5B);
    FeedTwo(p, P.ESC, 0x5B, TextBytes(text) + [i, final]);
    ParamsThenWith(P.Feed(e, 0x5B).parser, text, i, final);
  }

  // --- code points (RFC 3629) --------------------------------------------------------------------

  predicate Continues(b: Byte) { 0x80 <= b < 0xC0 }

  /** A lead byte and the length it announces. */
  function Announces(b: Byte): nat { if b < 0xC0 || b >= 0xF8 then 0 else if b < 0xE0 then 2 else if b < 0xF0 then 3 else 4 }

  lemma Leads(p: P.Parser, b: Byte)
    requires AtRest(p) && Announces(b) != 0
    ensures P.Feed(p, b) == P.Output(p.(need := Announces(b), got := [b]), [])
  {}

  lemma {:induction false} Gathers(p: P.Parser, rest: seq<Byte>)
    requires P.Tidy(p) && p.need > 0 && p.state == GROUND && rest != [] && |p.got| + |rest| == p.need
    requires forall k :: 0 <= k < |rest| ==> Continues(rest[k])
    ensures P.FeedAll(p, rest) == P.Output(p.(need := 0, got := []), [P.Glyph(P.Decode(p.got + rest))])
    decreases |rest|
  {
    assert Continues(rest[0]);
    var o := P.Feed(p, rest[0]);
    if |rest| == 1 {
      assert rest == [rest[0]];
      P.FeedAllOne(p, rest[0]);
    } else {
      assert o == P.Output(p.(got := p.got + [rest[0]]), []);
      P.FeedStaysTidy(p, rest[0]);
      Gathers(o.parser, rest[1..]);
      assert p.got + [rest[0]] + rest[1..] == p.got + rest;
    }
  }

  lemma Encoded(cp: nat)
    requires R.Scalar(cp) && cp >= 0x80
    ensures Announces(R.RuneBytes(cp)[0]) == |R.RuneBytes(cp)| >= 2
    ensures forall k :: 1 <= k < |R.RuneBytes(cp)| ==> Continues(R.RuneBytes(cp)[k])
  {}

  /** A code point's bytes are one glyph, whole; ASCII is delivered as the byte it is. */
  lemma RuneIsDelivered(p: P.Parser, cp: nat)
    requires AtRest(p) && R.Scalar(cp) && cp >= 0x20 && cp != 0xFFFF
    ensures P.FeedAll(p, R.RuneBytes(cp)) == P.Output(p, [if cp < 0x80 then P.Ascii(cp) else P.Glyph(cp)])
  {
    var bytes := R.RuneBytes(cp);
    if cp < 0x80 {
      P.FeedAllOne(p, cp);
    } else {
      Encoded(cp);
      R.RuneReadsBack(cp);
      Leads(p, bytes[0]);
      P.FeedStaysTidy(p, bytes[0]);
      Gathers(P.Feed(p, bytes[0]).parser, bytes[1..]);
      assert [bytes[0]] + bytes[1..] == bytes;
    }
  }

  predicate Formed(buf: seq<Byte>) {
    2 <= |buf| <= 4 && Announces(buf[0]) == |buf| && forall k :: 1 <= k < |buf| ==> Continues(buf[k])
  }

  lemma Sixes(q: nat, w: nat)
    requires w < 64
    ensures (q * 64 + w) / 64 == q && (q * 64 + w) % 64 == w
  {}

  /** The digits of a number to base 64, the last three of them and what is above. */
  lemma Digits(x: nat, y: nat, z: nat, w: nat)
    requires y < 64 && z < 64 && w < 64
    ensures
      var r := x * 262144 + y * 4096 + z * 64 + w;
      r % 64 == w && r / 64 % 64 == z && r / 4096 % 64 == y && r / 262144 == x && r / 4096 == x * 64 + y
  {
    var r := x * 262144 + y * 4096 + z * 64 + w;
    Sixes((x * 64 + y) * 64 + z, w);
    Sixes(x * 64 + y, z);
    Sixes(x, y);
    assert r == ((x * 64 + y) * 64 + z) * 64 + w;
    assert r / 4096 == r / 64 / 64 && r / 262144 == r / 64 / 64 / 64;
  }

  lemma TwoAreShortest(a: Byte, b: Byte)
    requires Formed([a, b]) && P.Decode([a, b]) != 0xFFFD
    ensures R.Scalar(P.Decode([a, b])) && R.RuneBytes(P.Decode([a, b])) == [a, b]
  {
    assert Continues([a, b][1]);
    Digits(0, 0, a % 32, b % 64);
  }

  lemma ThreeAreShortest(a: Byte, b: Byte, c: Byte)
    requires Formed([a, b, c]) && P.Decode([a, b, c]) != 0xFFFD
    ensures R.Scalar(P.Decode([a, b, c])) && R.RuneBytes(P.Decode([a, b, c])) == [a, b, c]
  {
    assert Continues([a, b, c][1]) && Continues([a, b, c][2]);
    Digits(0, a % 16, b % 64, c % 64);
    assert P.Decode([a, b, c]) == (a % 16) * 4096 + (b % 64) * 64 + c % 64;
  }

  lemma FourAreShortest(a: Byte, b: Byte, c: Byte, d: Byte)
    requires Formed([a, b, c, d]) && P.Decode([a, b, c, d]) != 0xFFFD
    ensures R.Scalar(P.Decode([a, b, c, d])) && R.RuneBytes(P.Decode([a, b, c, d])) == [a, b, c, d]
  {
    assert Continues([a, b, c, d][1]) && Continues([a, b, c, d][2]) && Continues([a, b, c, d][3]);
    Digits(a % 8, b % 64, c % 64, d % 64);
    var r := P.Decode([a, b, c, d]);
    assert r == (a % 8) * 262144 + (b % 64) * 4096 + (c % 64) * 64 + d % 64;
    assert R.Trail(r) == d && R.Trail(r / 64) == c && R.Trail(r / 4096) == b;
  }

  /** Whatever is not the one shortest encoding of a scalar value is replaced: what the decoder
      lets through, the encoder gives back byte for byte. */
  lemma OnlyShortestIsDecoded(buf: seq<Byte>)
    requires Formed(buf) && P.Decode(buf) != 0xFFFD
    ensures R.Scalar(P.Decode(buf)) && R.RuneBytes(P.Decode(buf)) == buf
  {
    if |buf| == 2 {
      assert buf == [buf[0], buf[1]];
      TwoAreShortest(buf[0], buf[1]);
    } else if |buf| == 3 {
      assert buf == [buf[0], buf[1], buf[2]];
      ThreeAreShortest(buf[0], buf[1], buf[2]);
    } else {
      assert buf == [buf[0], buf[1], buf[2], buf[3]];
      FourAreShortest(buf[0], buf[1], buf[2], buf[3]);
    }
  }

  /** A code point cut short by any byte that cannot continue it is one replacement glyph,
      and that byte is read as if nothing had come before it. */
  lemma BrokenRuneIsReplaced(p: P.Parser, lead: Byte, some: seq<Byte>, b: Byte)
    requires AtRest(p) && Announces(lead) > 1 + |some| && !Continues(b)
    requires forall k :: 0 <= k < |some| ==> Continues(some[k])
    ensures
      var o := P.FeedAll(p, [lead] + some + [b]);
      o.events == [P.Glyph(0xFFFD)] + P.Feed(p, b).events && o.parser == P.Feed(p, b).parser
  {
    Leads(p, lead);
    P.FeedStaysTidy(p, lead);
    P.FeedAllOne(p, lead);
    var q := P.Feed(p, lead).parser;
    GathersPart(q, some);
    var r := P.FeedAll(q, some).parser;
    P.FeedAllOne(r, b);
    P.FoldAppend(P.Feed, p, [lead], some);
    P.FoldAppend(P.Feed, p, [lead] + some, [b]);
    assert r.(need := 0, got := []) == p;
  }

  lemma {:induction false} GathersPart(p: P.Parser, some: seq<Byte>)
    requires P.Tidy(p) && p.need > |p.got| + |some| && p.state == GROUND
    requires forall k :: 0 <= k < |some| ==> Continues(some[k])
    ensures P.FeedAll(p, some) == P.Output(p.(got := p.got + some), [])
    decreases |some|
  {
    if some == [] {
      assert p.got + some == p.got;
    } else {
      assert Continues(some[0]);
      P.FeedStaysTidy(p, some[0]);
      GathersPart(P.Feed(p, some[0]).parser, some[1..]);
      assert p.got + [some[0]] + some[1..] == p.got + some;
    }
  }

  /** What a text is delivered as, one event to a code point. */
  function Delivered(text: seq<int>): seq<P.Event> {
    if text == [] then [] else [if 0 <= text[0] < 0x80 then P.Ascii(text[0]) else P.Glyph(Max(text[0], 0))] + Delivered(text[1..])
  }

  /** A text sent as a row's bytes are sent is delivered code point by code point. */
  lemma {:induction false} TextIsDelivered(p: P.Parser, text: seq<int>)
    requires AtRest(p) && forall k :: 0 <= k < |text| ==> R.Scalar(text[k]) && text[k] >= 0x20 && text[k] != 0xFFFF
    ensures P.FeedAll(p, R.TextBytes(text)) == P.Output(p, Delivered(text))
    decreases |text|
  {
    if text != [] {
      assert R.Scalar(text[0]);
      RuneIsDelivered(p, text[0]);
      TextIsDelivered(p, text[1..]);
      P.FoldAppend(P.Feed, p, R.RuneBytes(text[0]), R.TextBytes(text[1..]));
      assert R.TextBytes(text) == R.RuneBytes(text[0]) + R.TextBytes(text[1..]);
    }
  }
}
