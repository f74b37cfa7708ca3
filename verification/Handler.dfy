/** The handler as the program keeps it: fields updated in place, each locked
    section proved to be one step of the delivery protocol. */
module Handler {
  import opened Prelude
  import opened WireTypes
  import opened FlushBuilder
  import opened ClientView
  import opened Scrollback
  import opened Delivery

  class TerminalHandler {
    var screen: Screen
    var sizeEstablished: bool
    const builder: FlushFrameBuilder
    const scrollback: ScrollbackRing<Row>
    var clients: map<nat, Conn>
    var flight: Option<Flight>
    var paletteChangedPending: bool
    var scrollbackClearedPending: bool
    var pendingClipboard: Option<seq<nat>>
    var clock: nat

    ghost function Model(): Sys
      reads this, builder, scrollback
    {
      Sys(screen, sizeEstablished, builder.Model(), scrollback.Model(), clients, flight,
          paletteChangedPending, scrollbackClearedPending, pendingClipboard, clock)
    }

    ghost predicate Valid()
      reads this, builder, scrollback
    {
      scrollback.Valid()
    }

    constructor (initial: Screen, capacity: int)
      requires initial.Valid()
      ensures Valid() && Initial(Model()) && fresh(builder) && fresh(scrollback)
      ensures Model().ring.capacity == Max(capacity, 0)
    {
      screen, sizeEstablished := initial, false;
      builder := new FlushFrameBuilder(initial.modes);
      scrollback := new ScrollbackRing<Row>(capacity);
      clients, flight := map[], None;
      paletteChangedPending, scrollbackClearedPending, pendingClipboard := false, false, None;
      clock := 0;
    }

    /** One flush pass's locked section. */
    method BuildFrame(held: bool, coalesce: bool)
      requires Valid() && Enabled(Model(), Step.BuildFrame(held, coalesce))
      modifies this, builder, scrollback
      ensures Valid()
      ensures Model() == Next(old(Model()), Step.BuildFrame(held, coalesce))
    {
      if clients == map[] {
        RetainSuspendedScrollback();
        return;
      }
      ghost var s := Model();
      var seen := screen;
      var built := BuildCommitted(held, coalesce);
      ghost var b := Pass(BuildCache(s, held, coalesce), s.screen, s.sized, held, s.ring.Committed());
      SendBuilt(built, seen, s, b);
    }

    /** Decorate the built frame and set it on its way. */
    method SendBuilt(built: Option<Frame>, seen: Screen, ghost s: Sys, ghost b: Built)
      requires built == b.frame && seen == s.screen
      requires Model() == s.(cache := b.cache, screen := b.screen, palettePending := false,
                             ring := if b.frame.Some? then s.ring.Append(b.frame.value.scroll) else s.ring)
      modifies this
      ensures Model() == Sent(s, b)
    {
      var frame := AddOneShots(built);
      clock := clock + 1;
      flight := Launch(frame, if built.None? then None else Some(PictureOf(seen, built.value.base)), clients, clock);
    }

    /** Fold in the pending repaints, build, and commit the frame's lines. */
    method BuildCommitted(held: bool, coalesce: bool) returns (built: Option<Frame>)
      requires Valid()
      modifies this, builder, scrollback
      ensures Valid()
      ensures
        var s := old(Model());
        var b := Pass(BuildCache(s, held, coalesce), s.screen, s.sized, held, s.ring.Committed());
        && built == b.frame
        && Model() == s.(cache := b.cache, screen := b.screen, palettePending := false,
                         ring := if b.frame.Some? then s.ring.Append(b.frame.value.scroll) else s.ring)
    {
      if paletteChangedPending || (!held && coalesce) {
        builder.Reset();
      }
      paletteChangedPending := false;
      built := None;
      if !held {
        built, screen := builder.BuildNext(screen, sizeEstablished, false, scrollback.committed);
      }
      if built.Some? {
        scrollback.Append(built.value.scroll);
      }
    }

    /** The erase flag and the clipboard ride the frame, or make one. */
    method AddOneShots(built: Option<Frame>) returns (frame: Option<Frame>)
      modifies this
      ensures frame == Decorate(built, old(scrollbackClearedPending), old(pendingClipboard))
      ensures Model() == old(Model()).(clearedPending := old(scrollbackClearedPending) && built.None?, clipboard := None)
    {
      frame := built;
      if frame.Some? && scrollbackClearedPending {
        frame := Some(frame.value.(cleared := true,
          changed := AppendRowIfMissing(frame.value.changed, frame.value.curRow, |frame.value.rows|)));
        scrollbackClearedPending := false;
      }
      if pendingClipboard.Some? {
        if frame.None? { frame := Some(EMPTY_FRAME); }
        frame := Some(frame.value.(clipboard := pendingClipboard));
        pendingClipboard := None;
      }
    }

    method RetainSuspendedScrollback()
      requires Valid()
      modifies this, scrollback
      ensures Valid()
      ensures Model() == Suspend(old(Model()))
    {
      flight := None;
      if !sizeEstablished { return; }
      var drained := screen.drained;
      ghost var kept := Committable(builder.Model(), screen);
      screen := screen.(drained := []);
      if screen.alt || (builder.prevAltValid && screen.alt != builder.prevAlt) || |drained| == 0 {
        assert kept == [] && scrollback.history + [] == scrollback.history;
        return;
      }
      scrollback.Append(drained);
    }

    /** The locked snapshot of a resume, taken under the socket's write lock. */
    method TakeResumeSnapshot(c: nat, haveThrough: int, replayMax: Option<nat>)
      requires Valid() && Enabled(Model(), ResumeSnapshot(c, haveThrough, replayMax))
      modifies this, builder, scrollback
      ensures Valid()
      ensures Model() == Next(old(Model()), ResumeSnapshot(c, haveThrough, replayMax))
    {
      ghost var s := Model();
      var before := scrollback.committed;
      var seen := screen;
      CommitPendingDrain();
      var committed := scrollback.committed;
      var firstAbs, replay := scrollback.LinesFrom(ReplayStart(committed, haveThrough, replayMax));
      clock := clock + 1;
      clients := Resumed(clients, c, before, committed, Batch(PictureOf(seen, committed), firstAbs, replay, clock));
      assert Model() == Snapshot(s, c, haveThrough, replayMax);
    }

    /** Force the next build to repaint and keep what scrolled while nobody looked. */
    method CommitPendingDrain()
      requires Valid()
      modifies this, builder, scrollback
      ensures Valid()
      ensures var s := old(Model());
              Model() == s.(ring := s.ring.Append(Committable(s.cache, s.screen)),
                            screen := s.screen.(drained := []), cache := s.cache.Reset())
    {
      var drained := screen.drained;
      var stale := screen.alt || (builder.prevAltValid && screen.alt != builder.prevAlt);
      builder.Reset();
      screen := screen.(drained := []);
      if !stale && |drained| > 0 {
        scrollback.Append(drained);
      } else {
        assert scrollback.history + [] == scrollback.history;
      }
    }

    /** The per-socket write loop of a dispatch, under the socket's write lock. */
    method WriteClientPayloads(c: nat)
      requires Valid() && Enabled(Model(), Dispatch(c))
      modifies this
      ensures Valid()
      ensures Model() == Next(old(Model()), Dispatch(c))
    {
      var fl := flight.value;
      var st := clients[c];
      var scroll := ScrollPayloads(fl.frame.scrollFirst, fl.frame.scroll, SCROLL_CHUNK);
      var payloads := if st.gen != fl.gens[c]
        then OptClip(fl.frame.clipboard) + scroll
        else OptModes(fl.frame.modes) + OptTitle(fl.frame.title) + OptClip(fl.frame.clipboard) + ScreenPart(fl.frame) + scroll;
      var log := WriteAll(st.log, payloads, fl.stamp);
      var whole := st.gen == fl.gens[c] && c in fl.ready && fl.picture.Some?;
      clients := clients[c := st.(log := log, shown := if whole then fl.picture else st.shown)];
      flight := Some(fl.(waiting := fl.waiting - {c}));
    }

    /** Writing the snapshot's batch, then releasing the write lock. */
    method WriteResumeBatch(c: nat)
      requires Valid() && Enabled(Model(), BatchWrite(c))
      modifies this
      ensures Valid()
      ensures Model() == Next(old(Model()), BatchWrite(c))
    {
      var st := clients[c];
      var b := st.batch.value;
      var replay := ScrollPayloads(b.first, b.replay, REPLAY_CHUNK);
      var payloads := [ModesMsg(b.picture.modes), TitleMsg(b.picture.title)]
        + (if b.picture.alt then replay + [Window(b.picture)] else [Window(b.picture)] + replay);
      var log := WriteAll(st.log, payloads, b.stamp);
      clients := clients[c := st.(log := log, batch := None, shown := Some(b.picture))];
    }
  }

  /** The chunking loop of the dispatcher and of the replay. */
  method ScrollPayloads(first: nat, lines: seq<Row>, size: nat) returns (ps: seq<Payload>)
    requires size > 0
    ensures ps == Chunks(first, lines, size)
  {
    ps := [];
    var i := 0;
    while i < |lines|
      invariant i <= |lines|
      invariant Chunks(first, lines, size) == ps + Chunks(first + i, lines[i..], size)
    {
      var end := Min(i + size, |lines|);
      NextChunk(first, lines, size, i, end);
      Regroup(ps, ScrollMsg(first + i, lines[i..end]), Chunks(first + end, lines[end..], size));
      ps := ps + [ScrollMsg(first + i, lines[i..end])];
      i := end;
    }
  }

  lemma NextChunk(first: nat, lines: seq<Row>, size: nat, i: nat, end: nat)
    requires size > 0 && i < |lines| && end == Min(i + size, |lines|)
    ensures Chunks(first + i, lines[i..], size)
         == [ScrollMsg(first + i, lines[i..end])] + Chunks(first + end, lines[end..], size)
  {
    var rest := lines[i..];
    assert rest[..end - i] == lines[i..end] && rest[end - i..] == lines[end..];
  }

  lemma Regroup(a: seq<Payload>, p: Payload, b: seq<Payload>)
    ensures a + ([p] + b) == (a + [p]) + b
  {
  }

  /** One socket write per payload, in order. */
  method WriteAll(log: seq<Written>, ps: seq<Payload>, stamp: nat) returns (r: seq<Written>)
    ensures r == log + Stamped(ps, stamp)
  {
    r := log;
    for i := 0 to |ps|
      invariant r == log + Stamped(ps[..i], stamp)
    {
      r := r + [Written(ps[i], stamp)];
      assert Stamped(ps[..i + 1], stamp) == Stamped(ps[..i], stamp) + [Written(ps[i], stamp)];
    }
    assert ps[..|ps|] == ps;
  }
}
