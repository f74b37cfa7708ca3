/** Client-to-server framing on one socket: controls and arbitrary input bytes share
    a channel, first told apart by a leading NUL and, after the upgrade, by the
    WebSocket message type (section 5.6 of RFC 6455). */
module Framing {
  import opened Prelude

  type Byte = x: int | 0 <= x < 256

  datatype Control =
    | Resize(cols: nat, rows: nat)
    | Resume(version: nat)
    | Ping
    | History(fromAbs: int, maxLines: int)
    | Upgrade
    | Unrecognized(kind: string)

  datatype Message = Text(data: seq<Byte>) | Binary(data: seq<Byte>)

  /** The control encoding, its decoder, and validity of text payloads. */
  datatype Codec = Codec(enc: Control -> seq<Byte>, dec: seq<Byte> -> Option<Control>, utf8: seq<Byte> -> bool)
  {
    ghost predicate Valid() {
      && (forall c :: dec(enc(c)) == Some(c) && utf8(enc(c)))
      && dec([]) == None
    }
  }

  const MIN_CLIENT_VERSION := 3
  const TYPED_FRAMING_VERSION := 4

  /** What the server makes of the channel: controls acted on, bytes written to the program. */
  datatype Event = Acted(c: Control) | Wrote(b: Byte)

  datatype Conn = Conn(armed: bool, latched: bool, closed: bool, events: seq<Event>)

  const OPENED := Conn(false, false, false, [])

  function Writes(data: seq<Byte>): (r: seq<Event>)
    ensures |r| == |data| && forall i :: 0 <= i < |data| ==> r[i] == Wrote(data[i])
  {
    seq(|data|, i requires 0 <= i < |data| => Wrote(data[i]))
  }

  // --- the server's read loop --------------------------------------------------------

  /** A resume below the compatibility floor closes the connection. */
  predicate Refused(c: Control) { c.Resume? && c.version != 0 && c.version < MIN_CLIENT_VERSION }

  predicate Arms(c: Control) { c.Resume? && c.version >= TYPED_FRAMING_VERSION }

  function HandleText(k: Codec, s: Conn, msg: seq<Byte>): Conn {
    if !k.utf8(msg) || msg == [] || !s.armed then s.(closed := true)
    else
      match k.dec(msg)
      case None => s.(closed := true)
      case Some(c) =>
        if Refused(c) then s.(closed := true)
        else if !c.Unrecognized? then
          s.(armed := s.armed || Arms(c), latched := true, events := s.events + [Acted(c)])
        else if !s.latched then s.(closed := true)
        else s
  }

  function HandleBinary(k: Codec, s: Conn, msg: seq<Byte>): Conn {
    if msg == [] then s
    else if !s.latched && msg[0] == 0 && k.dec(msg[1..]).Some? then
      var c := k.dec(msg[1..]).value;
      if Refused(c) then s.(closed := true)
      else s.(armed := s.armed || Arms(c), events := if c.Unrecognized? then s.events else s.events + [Acted(c)])
    else s.(events := s.events + Writes(msg))
  }

  function Serve(k: Codec, s: Conn, m: Message): Conn {
    if s.closed then s
    else match m case Text(data) => HandleText(k, s, data) case Binary(data) => HandleBinary(k, s, data)
  }

  function ServeAll(k: Codec, s: Conn, ms: seq<Message>): Conn
    decreases |ms|
  {
    if ms == [] then s else ServeAll(k, Serve(k, s, ms[0]), ms[1..])
  }

  method ClientReadLoop(k: Codec, incoming: seq<Message>) returns (s: Conn)
    ensures s == ServeAll(k, OPENED, incoming)
  {
    s := OPENED;
    var i := 0;
    while i < |incoming| && !s.closed
      invariant i <= |incoming|
      invariant ServeAll(k, OPENED, incoming) == ServeAll(k, s, incoming[i..])
    {
      var m := incoming[i];
      match m {
        case Text(data) => s := HandleText(k, s, data);
        case Binary(data) => s := HandleBinary(k, s, data);
      }
      assert incoming[i..][1..] == incoming[i + 1..];
      i := i + 1;
    }
    if s.closed { ClosedStays(k, s, incoming[i..]); }
  }

  lemma {:induction false} ClosedStays(k: Codec, s: Conn, ms: seq<Message>)
    requires s.closed
    ensures ServeAll(k, s, ms) == s
    decreases |ms|
  {
    if ms != [] { ClosedStays(k, s, ms[1..]); }
  }

  // --- the client's encoder -------------------------------------------------------------

  /** Input as messages: verbatim after the upgrade, leading NULs on their own before it. */
  function InputFrames(upgraded: bool, chunk: seq<Byte>): seq<Message>
    decreases |chunk|
  {
    if chunk == [] then []
    else if !upgraded && chunk[0] == 0 then [Binary([0])] + InputFrames(upgraded, chunk[1..])
    else [Binary(chunk)]
  }

  method SendInputFrames(upgraded: bool, chunk: seq<Byte>) returns (sent: seq<Message>)
    ensures sent == InputFrames(upgraded, chunk)
  {
    sent := [];
    var rest := chunk;
    if !upgraded {
      while |rest| > 0 && rest[0] == 0
        invariant InputFrames(upgraded, chunk) == sent + InputFrames(upgraded, rest)
        decreases |rest|
      {
        Step(sent, Binary([0]), InputFrames(upgraded, rest[1..]));
        sent := sent + [Binary([0])];
        rest := rest[1..];
      }
    }
    if |rest| > 0 {
      sent := sent + [Binary(rest)];
    }
  }

  lemma Step(a: seq<Message>, m: Message, b: seq<Message>)
    ensures a + ([m] + b) == a + [m] + b
  {
  }

  function ControlFrame(k: Codec, upgraded: bool, c: Control): Message {
    if upgraded then Text(k.enc(c)) else Binary([0] + k.enc(c))
  }

  /** What the client does on one socket. */
  datatype Op = Input(data: seq<Byte>) | Send(c: Control) | Transition

  function OpFrames(k: Codec, upgraded: bool, op: Op): seq<Message> {
    match op
    case Input(data) => InputFrames(upgraded, data)
    case Send(c) => [ControlFrame(k, upgraded, c)]
    case Transition => [Text(k.enc(Upgrade))]
  }

  function Wire(k: Codec, upgraded: bool, ops: seq<Op>): seq<Message>
    decreases |ops|
  {
    if ops == [] then []
    else OpFrames(k, upgraded, ops[0]) + Wire(k, upgraded || ops[0].Transition?, ops[1..])
  }

  /** What the server should make of it. */
  function Intended(ops: seq<Op>): seq<Event> {
    if ops == [] then [] else IntendedOf(ops[0]) + Intended(ops[1..])
  }

  function IntendedOf(op: Op): seq<Event> {
    match op
    case Input(data) => Writes(data)
    case Send(c) => [Acted(c)]
    case Transition => [Acted(Upgrade)]
  }

  /** The client's `upgraded` flag after these operations. */
  function Upgraded(upgraded: bool, ops: seq<Op>): bool
    decreases |ops|
  {
    if ops == [] then upgraded else Upgraded(upgraded || ops[0].Transition?, ops[1..])
  }

  /** The client's discipline: only controls it knows, no resume below the floor, and
      the upgrade only after a resume that declared the typed framing. */
  predicate Disciplined(armed: bool, ops: seq<Op>)
    decreases |ops|
  {
    ops != [] ==>
      && (ops[0].Send? ==> !ops[0].c.Unrecognized? && !Refused(ops[0].c))
      && (ops[0].Transition? ==> armed)
      && Disciplined(armed || (ops[0].Send? && Arms(ops[0].c)), ops[1..])
  }

  // --- faithfulness -----------------------------------------------------------------------

  lemma {:induction false} ServeAllConcat(k: Codec, s: Conn, a: seq<Message>, b: seq<Message>)
    ensures ServeAll(k, s, a + b) == ServeAll(k, ServeAll(k, s, a), b)
    decreases |a|
  {
    if a == [] {
      assert a + b == b;
    } else {
      assert (a + b)[1..] == a[1..] + b;
      ServeAllConcat(k, Serve(k, s, a[0]), a[1..], b);
    }
  }

  /** Input bytes are written exactly, whatever they look like: before the latch a
      frame starting with a NUL is a lone NUL, which no control encodes to. */
  lemma {:induction false} InputIsWritten(k: Codec, s: Conn, chunk: seq<Byte>)
    requires k.Valid() && !s.closed
    ensures ServeAll(k, s, InputFrames(s.latched, chunk)) == s.(events := s.events + Writes(chunk))
    decreases |chunk|
  {
    if chunk == [] {
      assert s.events + Writes(chunk) == s.events;
    } else if !s.latched && chunk[0] == 0 {
      var nul: seq<Byte> := [0];
      assert nul[1..] == [];
      var s1 := s.(events := s.events + Writes(nul));
      assert Serve(k, s, Binary(nul)) == s1;
      InputIsWritten(k, s1, chunk[1..]);
      var rest := InputFrames(s.latched, chunk[1..]);
      assert ([Binary(nul)] + rest)[1..] == rest;
      assert s.events + Writes(nul) + Writes(chunk[1..]) == s.events + Writes(chunk);
    } else {
      assert [Binary(chunk)][1..] == [];
    }
  }

  lemma ControlIsActedOn(k: Codec, s: Conn, c: Control)
    requires k.Valid() && !s.closed && !c.Unrecognized? && !Refused(c) && (s.latched ==> s.armed)
    ensures Serve(k, s, ControlFrame(k, s.latched, c))
         == s.(armed := s.armed || Arms(c), events := s.events + [Acted(c)])
  {
    assert k.dec(k.enc(c)) == Some(c);
    assert k.enc(c) != [];
    assert ([0] + k.enc(c))[1..] == k.enc(c);
  }

  lemma OpFaithful(k: Codec, s: Conn, op: Op)
    requires k.Valid() && !s.closed && (s.latched ==> s.armed) && Disciplined(s.armed, [op])
    ensures ServeAll(k, s, OpFrames(k, s.latched, op))
         == s.(armed := s.armed || (op.Send? && Arms(op.c)), latched := s.latched || op.Transition?,
               events := s.events + IntendedOf(op))
  {
    match op
    case Input(data) => InputIsWritten(k, s, data);
    case Send(c) =>
      ControlIsActedOn(k, s, c);
      assert [ControlFrame(k, s.latched, c)][1..] == [];
    case Transition =>
      assert k.dec(k.enc(Upgrade)) == Some(Upgrade) && k.enc(Upgrade) != [];
      assert [Text(k.enc(Upgrade))][1..] == [];
  }

  /** The first operation does what was intended of it and leaves a state to go on from. */
  lemma StepFaithful(k: Codec, s: Conn, ops: seq<Op>)
    requires k.Valid() && !s.closed && (s.latched ==> s.armed) && ops != [] && Disciplined(s.armed, ops)
    ensures
      var s1 := ServeAll(k, s, OpFrames(k, s.latched, ops[0]));
      && !s1.closed && (s1.latched ==> s1.armed) && Disciplined(s1.armed, ops[1..])
      && s1.events == s.events + IntendedOf(ops[0]) && s1.latched == (s.latched || ops[0].Transition?)
  {
    assert [ops[0]][1..] == [];
    OpFaithful(k, s, ops[0]);
  }

  /** From any state in which the latch equals the client's flag, the server makes of
      the client's messages exactly what was intended, and the latch keeps step. */
  lemma {:induction false} FramingFaithful(k: Codec, s: Conn, ops: seq<Op>)
    requires k.Valid() && !s.closed && (s.latched ==> s.armed)
    requires Disciplined(s.armed, ops)
    ensures var t := ServeAll(k, s, Wire(k, s.latched, ops));
            t.events == s.events + Intended(ops) && !t.closed && t.latched == Upgraded(s.latched, ops)
    decreases |ops|
  {
    if ops == [] {
      assert s.events + Intended(ops) == s.events;
    } else {
      StepFaithful(k, s, ops);
      var s1 := ServeAll(k, s, OpFrames(k, s.latched, ops[0]));
      FramingFaithful(k, s1, ops[1..]);
      FramingJoins(k, s, s1, ops);
    }
  }

  /** What is made of the first operation, then of the rest, is made of the whole. */
  lemma FramingJoins(k: Codec, s: Conn, s1: Conn, ops: seq<Op>)
    requires ops != [] && s1 == ServeAll(k, s, OpFrames(k, s.latched, ops[0]))
    requires s1.latched == (s.latched || ops[0].Transition?) && s1.events == s.events + IntendedOf(ops[0])
    ensures ServeAll(k, s, Wire(k, s.latched, ops)) == ServeAll(k, s1, Wire(k, s1.latched, ops[1..]))
    ensures s1.events + Intended(ops[1..]) == s.events + Intended(ops)
    ensures Upgraded(s1.latched, ops[1..]) == Upgraded(s.latched, ops)
  {
    WireJoins(k, s.latched, ops, OpFrames(k, s.latched, ops[0]), Wire(k, s1.latched, ops[1..]));
    ServeJoins(k, s, s1, OpFrames(k, s.latched, ops[0]), Wire(k, s1.latched, ops[1..]), Wire(k, s.latched, ops));
    IntendedJoins(s.events, ops);
  }

  lemma WireJoins(k: Codec, upgraded: bool, ops: seq<Op>, first: seq<Message>, rest: seq<Message>)
    requires ops != [] && first == OpFrames(k, upgraded, ops[0]) && rest == Wire(k, upgraded || ops[0].Transition?, ops[1..])
    ensures Wire(k, upgraded, ops) == first + rest
  {}

  lemma ServeJoins(k: Codec, s: Conn, s1: Conn, first: seq<Message>, rest: seq<Message>, whole: seq<Message>)
    requires s1 == ServeAll(k, s, first) && whole == first + rest
    ensures ServeAll(k, s, whole) == ServeAll(k, s1, rest)
  {
    ServeAllConcat(k, s, first, rest);
  }

  lemma IntendedJoins(events: seq<Event>, ops: seq<Op>)
    requires ops != []
    ensures events + IntendedOf(ops[0]) + Intended(ops[1..]) == events + Intended(ops)
  {}

  /** Serving more messages only ever adds events. */
  lemma {:induction false} EventsGrow(k: Codec, s: Conn, ms: seq<Message>)
    ensures s.events <= ServeAll(k, s, ms).events
    decreases |ms|
  {
    if ms != [] {
      assert s.events <= Serve(k, s, ms[0]).events;
      EventsGrow(k, Serve(k, s, ms[0]), ms[1..]);
    }
  }

  /** At every moment, with any part of the channel still undelivered or lost, the
      controls acted on and the bytes written are a prefix of those intended. */
  lemma PrefixFaithful(k: Codec, ops: seq<Op>, delivered: nat)
    requires k.Valid() && Disciplined(false, ops)
    requires delivered <= |Wire(k, false, ops)|
    ensures ServeAll(k, OPENED, Wire(k, false, ops)[..delivered]).events <= Intended(ops)
  {
    var wire := Wire(k, false, ops);
    FramingFaithful(k, OPENED, ops);
    assert [] + Intended(ops) == Intended(ops);
    assert wire == wire[..delivered] + wire[delivered..];
    ServeAllConcat(k, OPENED, wire[..delivered], wire[delivered..]);
    EventsGrow(k, ServeAll(k, OPENED, wire[..delivered]), wire[delivered..]);
  }

  /** The splitting is needed: sent in one binary message before the latch, input that
      spells a NUL and a control is taken for the control. */
  lemma UnsplitInputIsMistaken(k: Codec, c: Control)
    requires k.Valid() && !c.Unrecognized? && !Refused(c)
    ensures Serve(k, OPENED, Binary([0] + k.enc(c))).events == [Acted(c)]
    ensures ServeAll(k, OPENED, InputFrames(false, [0] + k.enc(c))).events == Writes([0] + k.enc(c))
  {
    ControlIsActedOn(k, OPENED, c);
    InputIsWritten(k, OPENED, [0] + k.enc(c));
    assert [] + Writes([0] + k.enc(c)) == Writes([0] + k.enc(c));
  }

  // --- who is let in -------------------------------------------------------------------------

  /** A resume is refused at versions 1 and 2 and at no other: then the connection is closed
      and nothing is acted on. A served one arms the connection from version 4 on. */
  lemma VersionsServed(k: Codec, s: Conn, version: nat)
    requires k.Valid() && !s.closed && (s.latched ==> s.armed)
    ensures
      var t := Serve(k, s, ControlFrame(k, s.latched, Resume(version)));
      && (t.closed <==> version == 1 || version == 2)
      && t.latched == s.latched && t.armed == (s.armed || version >= 4)
      && t.events == if t.closed then s.events else s.events + [Acted(Resume(version))]
  {
    var c := Resume(version);
    if Refused(c) {
      assert k.dec(k.enc(c)) == Some(c) && k.enc(c) != [];
      assert ([0] + k.enc(c))[1..] == k.enc(c);
    } else {
      ControlIsActedOn(k, s, c);
    }
  }

  /** Whatever version above 0 is served, every higher one is. */
  lemma NewerIsServed(k: Codec, s: Conn, version: nat, newer: nat)
    requires k.Valid() && !s.closed && (s.latched ==> s.armed) && 0 < version <= newer
    requires !Serve(k, s, ControlFrame(k, s.latched, Resume(version))).closed
    ensures !Serve(k, s, ControlFrame(k, s.latched, Resume(newer))).closed
  {
    VersionsServed(k, s, version);
    VersionsServed(k, s, newer);
  }

  /** A present client's opening: its resume, then the upgrade. The connection is open, armed
      and latched, with both controls acted on. */
  lemma OpeningUpgrades(k: Codec, version: nat)
    requires k.Valid() && version >= 4
    ensures ServeAll(k, OPENED, [Binary([0] + k.enc(Resume(version))), Text(k.enc(Upgrade))])
         == Conn(true, true, false, [Acted(Resume(version)), Acted(Upgrade)])
  {
    var resume, upgrade := Binary([0] + k.enc(Resume(version))), Text(k.enc(Upgrade));
    VersionsServed(k, OPENED, version);
    ControlIsActedOn(k, OPENED, Resume(version));
    var s := Serve(k, OPENED, resume);
    assert s == Conn(true, false, false, [Acted(Resume(version))]);
    assert k.dec(k.enc(Upgrade)) == Some(Upgrade) && k.enc(Upgrade) != [];
    assert [resume, upgrade][1..] == [upgrade] && [upgrade][1..] == [];
    assert ServeAll(k, s, [upgrade]) == Serve(k, s, upgrade);
  }

  /** An older client, or one silent about its version, is served and stays on the binary
      framing: the upgrade it never sends would close its connection. */
  lemma OlderStaysBinary(k: Codec, version: nat)
    requires k.Valid() && (version == 0 || version == 3)
    ensures
      var s := Serve(k, OPENED, Binary([0] + k.enc(Resume(version))));
      && s == Conn(false, false, false, [Acted(Resume(version))])
      && Serve(k, s, Text(k.enc(Upgrade))) == s.(closed := true)
  {
    ControlIsActedOn(k, OPENED, Resume(version));
  }

  /** A control the server does not know does nothing after the upgrade, closes the
      connection as text before it, and does nothing as a binary message. */
  lemma UnknownControls(k: Codec, s: Conn, kind: string)
    requires k.Valid() && !s.closed && (s.latched ==> s.armed)
    ensures Serve(k, s, Text(k.enc(Unrecognized(kind)))) == if s.latched then s else s.(closed := true)
    ensures !s.latched ==> Serve(k, s, Binary([0] + k.enc(Unrecognized(kind)))) == s
  {
    var c := Unrecognized(kind);
    assert k.dec(k.enc(c)) == Some(c) && k.enc(c) != [];
    assert ([0] + k.enc(c))[1..] == k.enc(c);
  }

  /** Text that is empty, no UTF-8 or no control, or that comes before any resume has armed
      the connection, closes it and does nothing else. */
  lemma StrayTextCloses(k: Codec, s: Conn, msg: seq<Byte>)
    requires !s.closed && (msg == [] || !k.utf8(msg) || k.dec(msg).None? || !s.armed)
    ensures Serve(k, s, Text(msg)) == s.(closed := true)
  {}

  /** Text is never input: it adds nothing, or the one control it spells, or it closes. */
  lemma TextIsNeverInput(k: Codec, s: Conn, msg: seq<Byte>)
    requires k.Valid() && !s.closed
    ensures
      var t := Serve(k, s, Text(msg));
      && (t.closed || k.dec(msg).Some?)
      && (t.events == s.events || (k.dec(msg).Some? && t.events == s.events + [Acted(k.dec(msg).value)]))
  {}
}
