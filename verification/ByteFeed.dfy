/** The parser as it is kept between bytes: a state number, flat parameter slots, small
    buffers and counters, changed in place and driven by the built table. */
module ByteFeed {
  import opened Prelude
  import opened VtTable
  import opened ParamSlots
  import C = CsiParams
  import P = Parser

  /** Which bytes the table takes for parameters. */
  lemma ParamBytes(s: State, b: Byte)
    ensures
      && Entry(s, b).Go?
      && (Entry(s, b).act == Param ==> b == ';' as int || '0' as int <= b <= '9' as int)
      && Entry(s, b).act !in {Clear, Hook, Unhook, OscStart, OscEnd}
      && ExitAction(s) in {Nop, OscEnd, Unhook}
      && EntryAction(s) in {Nop, Clear, OscStart, Hook}
  {}

  // --- one table step, part by part ----------------------------------------------------------

  function Left(p: P.Parser, next: State, b: Byte): P.Output {
    if next != p.state && b != P.CAN && b != P.SUB then P.DoAction(p, ExitAction(p.state), b) else P.Output(p, [])
  }

  function Acted(p: P.Parser, act: Action, b: Byte): P.Output { P.DoAction(p, act, b) }

  function Entered(p: P.Parser, next: State, b: Byte): P.Output {
    if next != p.state then P.DoAction(p.(state := next), EntryAction(next), b) else P.Output(p, [])
  }

  lemma MoveInThree(p: P.Parser, b: Byte)
    ensures
      var t := Entry(p.state, b);
      && t.Go?
      && var left := Left(p, t.next, b);
      var acted := Acted(left.parser, t.act, b);
      var entered := Entered(acted.parser, t.next, b);
      P.Move(p, b) == P.Output(entered.parser, left.events + acted.events + entered.events)
  {
    ParamBytes(p.state, b);
    var t := Entry(p.state, b);
    var left := Left(p, t.next, b);
    P.ActionBounds(p, ExitAction(p.state), b);
    P.ActionBounds(left.parser, t.act, b);
    var acted := Acted(left.parser, t.act, b);
    assert [] + acted.events + [] == acted.events;
  }

  class ByteParser {
    const table: array2<Transition>
    const slots: Slots
    const intermed: array<Byte>
    const utf8Buf: array<Byte>
    var state: State
    var numInterm: nat
    var marker: Byte
    var utf8Len: nat
    var utf8Got: nat
    var oscBuf: seq<Byte>

    ghost function Parts(): set<object> { {slots, slots.pParams, slots.pGroupLen, intermed, utf8Buf} }

    ghost predicate TableBuilt()
      reads table
    {
      && table.Length0 == NUM_STATES && table.Length1 == 256
      && forall s: State, b: Byte :: table[s, b] == Entry(s, b)
    }

    ghost predicate Sound()
      reads this, Parts()
    {
      && slots.Valid() && intermed.Length == P.MAX_INTERMEDIATES && utf8Buf.Length == 4
      && slots.pParams != slots.pGroupLen && intermed != utf8Buf
      && numInterm <= P.MAX_INTERMEDIATES && utf8Got <= 4
    }

    ghost function Model(): P.Parser
      requires Sound()
      reads this, Parts()
    {
      P.Parser(state, slots.model, intermed[..numInterm], marker, utf8Len, if utf8Len > 0 then utf8Buf[..utf8Got] else [], oscBuf)
    }

    ghost predicate Valid()
      reads this, Parts(), table
    {
      TableBuilt() && Sound() && P.Tidy(Model())
    }

    constructor ()
      ensures Valid() && Model() == P.START && fresh(table) && fresh(Parts())
    {
      var t := BuildTable();
      table := t;
      slots := new Slots();
      intermed := new Byte[P.MAX_INTERMEDIATES](_ => 0);
      utf8Buf := new Byte[4](_ => 0);
      state, numInterm, marker, utf8Len, utf8Got, oscBuf := GROUND, 0, 0, 0, 0, [];
    }

    /** A lead byte opens a sequence; what cannot lead one is replaced. */
    method HandlePrint(b: Byte) returns (events: seq<P.Event>)
      requires Sound() && utf8Len == 0
      modifies this`utf8Len, this`utf8Got, utf8Buf
      ensures Sound() && P.Output(Model(), events) == P.PrintByte(old(Model()), b)
    {
      events := [];
      if b < 0x80 {
        events := [P.Ascii(b)];
      } else if b < 0xC0 || b >= 0xF8 {
        events := [P.Glyph(P.REPLACEMENT)];
      } else {
        utf8Buf[0] := b;
        utf8Len, utf8Got := if b < 0xE0 then 2 else if b < 0xF0 then 3 else 4, 1;
      }
    }

    method Collect(b: Byte)
      requires Sound()
      modifies this`numInterm, intermed
      ensures Sound() && P.Output(Model(), []) == P.DoAction(old(Model()), Action.Collect, b)
    {
      if numInterm < P.MAX_INTERMEDIATES {
        intermed[numInterm] := b;
        numInterm := numInterm + 1;
        assert intermed[..numInterm] == old(intermed[..numInterm]) + [b];
      }
    }

    /** The actions that read or write the parameter slots. */
    method SlotAction(act: Action, b: Byte)
      requires Sound() && act in {Clear, Param, Subparam, CsiDispatch, Hook}
      requires act == Param ==> b == ';' as int || '0' as int <= b <= '9' as int
      modifies slots, slots.pParams, slots.pGroupLen
      ensures Sound()
      ensures slots.model ==
              if act == Clear then C.CLEARED
              else if act == Param then C.Feed(old(slots.model), b as char)
              else if act == Subparam then C.Feed(old(slots.model), ':')
              else C.Finalize(old(slots.model))
    {
      if act == Clear {
        slots.ParserClear();
      } else if act == Param {
        slots.HandleParam(b as char);
      } else if act == Subparam {
        slots.HandleSubparam();
      } else {
        slots.FinalizeParams();
      }
    }

    method DoAction(act: Action, b: Byte) returns (events: seq<P.Event>)
      requires Sound()
      requires act == Param ==> b == ';' as int || '0' as int <= b <= '9' as int
      requires act == Print ==> utf8Len == 0
      modifies this`numInterm, this`marker, this`utf8Len, this`utf8Got, this`oscBuf, Parts()
      ensures Sound() && P.Output(Model(), events) == P.DoAction(old(Model()), act, b)
    {
      events := [];
      match act
      case Print => events := HandlePrint(b);
      case Execute => events := [P.Exec(b)];
      case Clear =>
        SlotAction(act, b);
        numInterm, marker := 0, 0;
      case Collect => Collect(b);
      case Param => SlotAction(act, b);
      case Subparam => SlotAction(act, b);
      case Marker => marker := b;
      case EscDispatch => events := [P.Esc(intermed[..numInterm], b)];
      case CsiDispatch =>
        SlotAction(act, b);
        var groups := slots.AllGroups();
        events := [P.Csi(groups, intermed[..numInterm], marker, b)];
      case Hook =>
        SlotAction(act, b);
        events := [P.DcsHook(intermed[..numInterm], b)];
      case Put => events := [P.DcsPut(b)];
      case Unhook => events := [P.DcsUnhook];
      case OscStart => oscBuf := [];
      case OscPut => if |oscBuf| < P.MAX_OSC { oscBuf := oscBuf + [b]; }
      case OscEnd => events := [P.Osc(oscBuf)];
      case Nop =>
    }

    /** The exit action of the state being left, unless CAN or SUB cut it short. */
    method Leave(next: State, b: Byte) returns (events: seq<P.Event>)
      requires Sound() && utf8Len == 0
      modifies this`numInterm, this`marker, this`utf8Len, this`utf8Got, this`oscBuf, Parts()
      ensures Sound() && utf8Len == 0 && P.Output(Model(), events) == Left(old(Model()), next, b)
    {
      events := [];
      ParamBytes(state, b);
      if next != state && b != P.CAN && b != P.SUB { events := DoAction(ExitAction(state), b); }
    }

    /** The new state and its entry action. */
    method Enter(next: State, b: Byte) returns (events: seq<P.Event>)
      requires Sound()
      modifies this, Parts()
      ensures Sound() && P.Output(Model(), events) == Entered(old(Model()), next, b)
    {
      events := [];
      if next != state {
        state := next;
        ParamBytes(next, b);
        events := DoAction(EntryAction(next), b);
      }
    }

    method Act(act: Action, b: Byte) returns (events: seq<P.Event>)
      requires Sound() && Entry(state, b).Go? && act == Entry(state, b).act && utf8Len == 0
      modifies this`numInterm, this`marker, this`utf8Len, this`utf8Got, this`oscBuf, Parts()
      ensures Sound() && P.Output(Model(), events) == Acted(old(Model()), act, b)
    {
      ParamBytes(state, b);
      events := DoAction(act, b);
    }

    /** One table step: exit action, action, entry action. */
    method Step(b: Byte) returns (events: seq<P.Event>)
      requires TableBuilt() && Sound() && utf8Len == 0
      modifies this, Parts()
      ensures Sound() && P.Output(Model(), events) == P.Move(old(Model()), b)
    {
      ghost var p := Model();
      ParamBytes(state, b);
      var t := table[state, b];
      var left := Leave(t.next, b);
      var acted := Act(t.act, b);
      var entered := Enter(t.next, b);
      MoveInThree(p, b);
      events := left + acted + entered;
    }

    /** One byte. */
    method Feed(b: Byte) returns (events: seq<P.Event>)
      requires Valid()
      modifies this, Parts()
      ensures Valid() && P.Output(Model(), events) == P.Feed(old(Model()), b)
    {
      P.FeedStaysTidy(Model(), b);
      if utf8Len == 0 {
        events := Step(b);
      } else if 0x80 <= b < 0xC0 {
        events := Continue(b);
      } else {
        utf8Len := 0;
        var rest := Step(b);
        events := [P.Glyph(P.REPLACEMENT)] + rest;
      }
    }

    /** A continuation byte: the rune is delivered once its last byte is in. */
    method Continue(b: Byte) returns (events: seq<P.Event>)
      requires Valid() && utf8Len > 0 && 0x80 <= b < 0xC0
      modifies this`utf8Len, this`utf8Got, utf8Buf
      ensures Sound() && P.Output(Model(), events) == P.Feed(old(Model()), b)
    {
      events := [];
      utf8Buf[utf8Got] := b;
      utf8Got := utf8Got + 1;
      assert utf8Buf[..utf8Got] == old(utf8Buf[..utf8Got]) + [b];
      if utf8Got == utf8Len {
        events := [P.Glyph(P.Decode(utf8Buf[..utf8Got]))];
        utf8Len := 0;
      }
    }

    /** A whole write, byte by byte: the events of the byte machine's run. */
    method FeedAll(bytes: seq<Byte>) returns (events: seq<P.Event>)
      requires Valid()
      modifies this, Parts()
      ensures Valid() && P.Output(Model(), events) == P.FeedAll(old(Model()), bytes)
    {
      ghost var start := Model();
      events := [];
      for i := 0 to |bytes|
        invariant Valid() && P.Output(Model(), events) == P.FeedAll(start, bytes[..i])
      {
        ghost var before := P.Output(Model(), events);
        var more := Feed(bytes[i]);
        OneMore(start, bytes, i, before, P.Output(Model(), more));
        events := events + more;
      }
      assert bytes[..|bytes|] == bytes;
    }
  }

  lemma OneMore(start: P.Parser, bytes: seq<Byte>, i: nat, before: P.Output, o: P.Output)
    requires i < |bytes| && before == P.FeedAll(start, bytes[..i]) && o == P.Feed(before.parser, bytes[i])
    ensures P.FeedAll(start, bytes[..i + 1]) == P.Output(o.parser, before.events + o.events)
  {
    assert bytes[..i + 1] == bytes[..i] + [bytes[i]];
    P.FoldAppend(P.Feed, start, bytes[..i], [bytes[i]]);
    P.FeedAllOne(before.parser, bytes[i]);
  }
}
