/** The terminal as it is kept: a byte parser and a stored screen. Whatever it is sent and
    however it is resized, it does to its fields and row arrays what the value machine says,
    and no two rows, on the screen or behind it, ever share storage. */
module VtTerminal {
  import opened Prelude
  import opened VtCells
  import opened VtRows
  import opened VtPrinter
  import opened VtControls
  import opened VtDispatch
  import opened ByteFeed
  import V = VtScreen
  import S = VtStream
  import I = VtInvariant
  import P = Parser
  import Q = VtSequences
  import A = VtAlternate

  method SetLink(t: TerminalScreen, link: Option<seq<int>>)
    requires t.Valid()
    modifies t`pen
    ensures t.Valid() && t.Model() == if link.Some? then old(t.Model()).(pen := old(t.pen).(link := link.value)) else old(t.Model())
  {
    if link.Some? { t.pen := t.pen.(link := link.value); }
  }

  method Print(t: TerminalScreen, env: S.Env, e: P.Event)
    requires t.Valid() && (e.Ascii? || e.Glyph?)
    modifies t`history, t`cur, t`lastRune, t`lastStyle, t`charsets, t.rows`cells, t.rows`wrapped, t.rows`repr, t.rows.repr
    ensures t.Valid() && fresh(t.rows.repr - old(t.rows.repr)) && t.Model() == S.Apply(old(t.Model()), env, e)
  {
    if e.Ascii? {
      PutAscii(t, env, e.b);
    } else {
      t.Put(e.rune, S.Width(env, e.rune));
    }
  }

  method Control(t: TerminalScreen, env: S.Env, e: P.Event)
    requires t.rows.Valid() && I.Safe(t.Model()) && (e.Exec? || e.Esc? || e.Csi?)
    modifies t, t.rows, t.rows.Owned()
    ensures t.rows.Valid() && fresh(t.rows.Owned() - old(t.rows.Owned()))
    ensures t.Model() == S.Apply(old(t.Model()), env, e)
  {
    SafeIsValid(t);
    match e
    case Exec(b) => Execute(t, b);
    case Esc(i, f) => DispatchEsc(t, i, f);
    case Csi(gs, i, m, f) => DispatchCsi(t, env, gs, i, m, f);
  }

  /** One parser event, on the stored screen. */
  method Apply(t: TerminalScreen, env: S.Env, e: P.Event)
    requires t.rows.Valid() && I.Safe(t.Model())
    modifies t, t.rows, t.rows.Owned()
    ensures t.rows.Valid() && fresh(t.rows.Owned() - old(t.rows.Owned()))
    ensures t.Model() == S.Apply(old(t.Model()), env, e)
  {
    SafeIsValid(t);
    if e.Ascii? || e.Glyph? {
      Print(t, env, e);
    } else if e.Exec? || e.Esc? || e.Csi? {
      Control(t, env, e);
    } else if e.Osc? {
      SetLink(t, env.link(e.payload));
    }
  }

  method ApplyAll(t: TerminalScreen, env: S.Env, events: seq<P.Event>)
    requires t.rows.Valid() && I.Safe(t.Model())
    modifies t, t.rows, t.rows.Owned()
    ensures t.rows.Valid() && I.Safe(t.Model()) && fresh(t.rows.Owned() - old(t.rows.Owned()))
    ensures t.Model() == S.ApplyAll(old(t.Model()), env, events)
  {
    ghost var s := t.Model();
    for i := 0 to |events|
      invariant t.rows.Valid() && I.Safe(t.Model()) && fresh(t.rows.Owned() - old(t.rows.Owned()))
      invariant S.ApplyAll(t.Model(), env, events[i..]) == S.ApplyAll(s, env, events)
    {
      I.ApplyKeeps(t.Model(), env, events[i]);
      assert events[i..][1..] == events[i + 1..];
      Apply(t, env, events[i]);
    }
  }

  method BlankScreen(h: nat, w: nat) returns (t: TerminalScreen)
    requires h >= 1 && w >= 1
    ensures t.rows.Valid() && I.Safe(t.Model()) && t.Model() == V.New(h, w)
    ensures fresh(t) && fresh(t.rows) && fresh(t.rows.Owned())
  {
    t := new TerminalScreen(h, w);
    I.NewIsSafe(h, w);
  }

  class Terminal {
    const parser: ByteParser
    const screen: TerminalScreen

    /** Parser and rows are sound. What each writes is of types the other has none of. */
    ghost predicate Valid()
      reads parser, parser.Parts(), parser.table, screen, screen.rows, screen.rows.cells, screen.rows.Behind()
    {
      parser.Valid() && screen.rows.Valid() && I.Safe(screen.Model())
    }

    ghost function Model(): S.Terminal
      requires parser.Sound()
      reads parser, parser.Parts(), screen, screen.rows, screen.rows.cells, screen.rows.Behind()
    {
      S.Terminal(parser.Model(), screen.Model())
    }

    constructor (p: ByteParser, t: TerminalScreen)
      requires p.Valid() && t.rows.Valid() && I.Safe(t.Model())
      ensures Valid() && parser == p && screen == t
    {
      parser, screen := p, t;
    }

    method Parse(bytes: seq<Byte>) returns (events: seq<P.Event>)
      requires Valid()
      modifies parser, parser.Parts()
      ensures Valid() && screen.Model() == old(screen.Model()) && screen.rows.Owned() == old(screen.rows.Owned())
      ensures P.Output(parser.Model(), events) == P.FeedAll(old(parser.Model()), bytes)
    {
      ghost var s := screen.Model();
      events := parser.FeedAll(bytes);
      assert screen.Model() == s && screen.rows.Valid();
    }

    method Draw(env: S.Env, events: seq<P.Event>)
      requires Valid()
      modifies screen, screen.rows, screen.rows.Owned()
      ensures Valid() && parser.Model() == old(parser.Model()) && fresh(screen.rows.Owned() - old(screen.rows.Owned()))
      ensures screen.Model() == S.ApplyAll(old(screen.Model()), env, events)
    {
      ghost var p := parser.Model();
      ApplyAll(screen, env, events);
      assert parser.Valid() && parser.Model() == p;
    }

    /** A write. Parsing never looks at the screen, so it does not matter that events are
        collected before they are drawn. */
    method Write(env: S.Env, bytes: seq<Byte>)
      requires Valid()
      modifies parser, parser.Parts(), screen, screen.rows, screen.rows.Owned()
      ensures Valid() && fresh(screen.rows.Owned() - old(screen.rows.Owned())) && Model() == S.Write(old(Model()), env, bytes)
    {
      var events := Parse(bytes);
      Draw(env, events);
    }

    method Resize(rows: int, cols: int)
      requires Valid()
      requires screen.rows.inAlt ==> screen.savedRegion.0 < Max(rows, 1)
      modifies screen, screen.rows, screen.rows.Owned()
      ensures Valid() && fresh(screen.rows.Owned() - old(screen.rows.Owned()))
      ensures Model() == old(Model()).(screen := V.Resize(old(Model()).screen, rows, cols))
    {
      SafeIsValid(screen);
      I.ResizeKeepsExactly(screen.Model(), rows, cols);
      screen.Resize(rows, cols);
    }

    method Take(env: S.Env, input: I.Input)
      requires Valid() && I.NoDeepShrink(Model(), env, [input])
      modifies parser, parser.Parts(), screen, screen.rows, screen.rows.Owned()
      ensures Valid() && fresh(screen.rows.Owned() - old(screen.rows.Owned())) && Model() == I.Take(old(Model()), env, input)
    {
      match input
      case Output(bytes) => Write(env, bytes);
      case ResizeTo(rows, cols) => Resize(rows, cols);
    }

    /** Writes and resizes in any order: storage stays disjoint, and what is stored is what
        the value machine's run says. */
    method TakeAll(env: S.Env, inputs: seq<I.Input>)
      requires Valid() && I.NoDeepShrink(Model(), env, inputs)
      modifies parser, parser.Parts(), screen, screen.rows, screen.rows.Owned()
      ensures Valid() && Model() == I.Run(old(Model()), env, inputs)
      decreases |inputs|
    {
      if inputs != [] {
        Take(env, inputs[0]);
        TakeAll(env, inputs[1..]);
      }
    }
  }

  method NewParts(h: nat, w: nat) returns (p: ByteParser, t: TerminalScreen)
    requires h >= 1 && w >= 1
    ensures fresh(p) && fresh(p.Parts()) && p.Valid() && p.Model() == P.START
    ensures fresh(t) && fresh(t.rows) && fresh(t.rows.Owned()) && t.rows.Valid() && I.Safe(t.Model()) && t.Model() == V.New(h, w)
  {
    t := BlankScreen(h, w);
    ghost var s := t.Model();
    p := new ByteParser();
    assert t.Model() == s;
  }

  /** A terminal as it starts. */
  method NewTerminal(h: nat, w: nat) returns (term: Terminal)
    requires h >= 1 && w >= 1
    ensures fresh(term) && term.Valid() && term.Model() == S.Terminal(P.START, V.New(h, w))
    ensures fresh(term.parser) && fresh(term.parser.Parts()) && fresh(term.screen) && fresh(term.screen.rows) && fresh(term.screen.rows.Owned())
  {
    var p, t := NewParts(h, w);
    term := new Terminal(p, t);
  }

  /** A terminal from its start, through any writes and resizes: well formed, as the value
      machine's run says, and no two of its rows, showing or put aside, the same array. */
  method RunTerminal(h: nat, w: nat, env: S.Env, inputs: seq<I.Input>) returns (term: Terminal)
    requires h >= 1 && w >= 1 && I.NoDeepShrink(S.Terminal(P.START, V.New(h, w)), env, inputs)
    ensures term.Valid() && term.Model() == I.Run(S.Terminal(P.START, V.New(h, w)), env, inputs)
    ensures Distinct(term.screen.rows.cells + term.screen.rows.Behind())
  {
    term := NewTerminal(h, w);
    term.TakeAll(env, inputs);
    term.screen.rows.NoneShared();
  }

  /** A program's visit to the alternate screen, on the stored rows: whatever it draws
      there, the arrays that come back hold what the main screen's held. */
  method VisitAlternate(term: Terminal, env: S.Env, visit: seq<Byte>)
    requires term.Valid() && Q.AtRest(term.Model().parser) && !term.screen.rows.inAlt
    requires
      var entered := P.FeedAll(term.Model().parser, Q.AltBytes(true)).parser;
      A.NoneLeave(P.FeedAll(entered, visit).events)
    modifies term.parser, term.parser.Parts(), term.screen, term.screen.rows, term.screen.rows.Owned()
    ensures term.Valid() && !term.screen.rows.inAlt && Contents(term.screen.rows.cells) == old(Contents(term.screen.rows.cells))
    ensures term.screen.rows.wrapped == old(term.screen.rows.wrapped)
  {
    Q.AlternateVisitIsIsolated(term.Model(), env, visit);
    term.Write(env, Q.AltBytes(true) + visit + Q.AltBytes(false));
  }
}
