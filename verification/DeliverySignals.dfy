/** The one-shot signals that ride a frame: an erase of history, a clipboard and a bell. A
    client told of every erase holds no erased line, and no clipboard is lost. */
module DeliverySignals {
  import opened Prelude
  import opened WireTypes
  import opened FlushBuilder
  import opened ClientView
  import opened Scrollback
  import opened Delivery
  import opened DeliveryPictures

  // --- what a payload may store ------------------------------------------------------------

  /** The client holds no line below `n`. */
  ghost predicate NoneBelow(k: Client, n: nat) { forall i :: i in k.lines ==> n <= i }

  predicate StoresFrom(p: Payload, n: nat) {
    && (p.ScreenMsg? ==> n <= p.base)
    && (p.ScrollMsg? ==> n <= p.first)
  }

  ghost predicate AllFrom(ps: seq<Payload>, n: nat) { forall p :: p in ps ==> StoresFrom(p, n) }

  lemma {:induction false} RowsStoredFrom(store: map<nat, Row>, base: nat, changed: seq<nat>, rows: seq<Row>, i: nat)
    requires i in StoreRows(store, base, changed, rows)
    ensures i in store || base <= i
    decreases |changed|
  {
    if changed != [] { RowsStoredFrom(store[base + changed[0] := RowAt(rows, changed[0])], base, changed[1..], rows, i); }
  }

  lemma {:induction false} LinesStoredFrom(store: map<nat, Row>, first: nat, lines: seq<Row>, i: nat)
    requires i in StoreLines(store, first, lines)
    ensures i in store || first <= i
    decreases |lines|
  {
    if lines != [] { LinesStoredFrom(store[first := lines[0]], first + 1, lines[1..], i); }
  }

  /** A payload that stores from `n` on leaves nothing below it, if nothing was there or
      it carries the erase flag. */
  lemma ApplyFrom(k: Client, p: Payload, n: nat)
    requires StoresFrom(p, n) && (NoneBelow(k, n) || (p.ScreenMsg? && p.cleared))
    ensures NoneBelow(Apply(k, p), n)
  {
    forall i | i in Apply(k, p).lines ensures n <= i {
      match p
      case ScreenMsg(base, _, _, _, _, cleared, changed, rows) =>
        var kept := if cleared then map j | j in k.lines && base <= j :: k.lines[j] else k.lines;
        RowsStoredFrom(kept, base, changed, rows, i);
      case ScrollMsg(first, lines) => LinesStoredFrom(k.lines, first, lines, i);
      case _ =>
    }
  }

  lemma {:induction false} ApplyAllFrom(k: Client, ps: seq<Payload>, n: nat)
    requires NoneBelow(k, n) && AllFrom(ps, n)
    ensures NoneBelow(ApplyAll(k, ps), n)
    decreases |ps|
  {
    if ps != [] {
      ApplyFrom(k, ps[0], n);
      assert AllFrom(ps[1..], n);
      ApplyAllFrom(Apply(k, ps[0]), ps[1..], n);
    }
  }

  lemma {:induction false} ChunksFrom(first: nat, lines: seq<Row>, size: nat, n: nat)
    requires size > 0 && (lines == [] || n <= first)
    ensures AllFrom(Chunks(first, lines, size), n)
    decreases |lines|
  {
    if lines != [] {
      var m := Min(size, |lines|);
      ChunksFrom(first + m, lines[m..], size, n);
    }
  }

  /** Everything a frame or a batch stores lies from `n` on. */
  predicate FrameFrom(f: Frame, n: nat) {
    && (f.changed != [] ==> n <= f.base)
    && (f.scroll != [] ==> n <= f.scrollFirst)
  }

  predicate BatchFrom(b: Batch, n: nat) { n <= b.first && n <= b.picture.base }

  lemma FrameStoresFrom(f: Frame, n: nat)
    requires FrameFrom(f, n)
    ensures AllFrom(FramePayloads(f), n) && AllFrom(DurablePayloads(f), n)
  {
    ChunksFrom(f.scrollFirst, f.scroll, SCROLL_CHUNK, n);
  }

  lemma BatchStoresFrom(b: Batch, n: nat)
    requires BatchFrom(b, n)
    ensures AllFrom(b.Payloads(), n)
  {
    ChunksFrom(b.first, b.replay, REPLAY_CHUNK, n);
  }

  /** A frame that carries the flag and a screen leaves nothing below it, whatever the
      client held. */
  lemma FlaggedFrameErases(k: Client, f: Frame, n: nat)
    requires FrameFrom(f, n) && f.cleared && f.changed != []
    ensures NoneBelow(ApplyAll(k, FramePayloads(f)), n)
  {
    var head := OptModes(f.modes) + OptTitle(f.title) + OptClip(f.clipboard);
    var screen := ScreenPart(f);
    var chunks := Chunks(f.scrollFirst, f.scroll, SCROLL_CHUNK);
    ApplyAllConcat(k, head + screen, chunks);
    ApplyAllConcat(k, head, screen);
    var k1 := ApplyAll(k, head);
    assert screen[1..] == [] && ApplyAll(k1, screen) == Apply(k1, screen[0]);
    ApplyFrom(k1, screen[0], n);
    ChunksFrom(f.scrollFirst, f.scroll, SCROLL_CHUNK, n);
    ApplyAllFrom(ApplyAll(k1, screen), chunks, n);
  }

  // --- what every step keeps -----------------------------------------------------------------

  /** A frame with the erase flag is on its way to the socket. */
  predicate Erasing(s: Sys, c: nat) { Waiting(s.flight, c) && s.flight.value.frame.cleared }

  ghost predicate ConnClean(s: Sys, c: nat)
    requires c in s.conns
  {
    !s.clearedPending && !Erasing(s, c) ==>
      && NoneBelow(ClientOf(s.conns[c]), s.ring.cleared)
      && (s.conns[c].batch.Some? ==> BatchFrom(s.conns[c].batch.value, s.ring.cleared))
  }

  ghost predicate FlightClean(s: Sys) {
    s.flight.Some? ==>
      && (!s.clearedPending ==> FrameFrom(s.flight.value.frame, s.ring.cleared))
      && (s.flight.value.frame.cleared ==> s.flight.value.frame.changed != [])
  }

  ghost predicate Clean(s: Sys, c: nat) {
    s.screen.Valid() && s.ring.Valid() && FlightClean(s) && (c in s.conns ==> ConnClean(s, c))
  }

  /** The step does not strip the erase flag from the socket: a flagged frame reaches it
      before any resume newer than the frame. */
  predicate Hears(s: Sys, st: Step, c: nat)
    requires Enabled(s, st)
  {
    st.Dispatch? && st.c == c && s.flight.value.frame.cleared ==> Current(s, c)
  }

  lemma BuiltIsFrom(c: Cache, s: Screen, sized: bool, held: bool, committed: nat)
    ensures
      var f := Pass(c, s, sized, held, committed).frame;
      f.Some? ==> FrameFrom(f.value, committed) && f.value.rows == s.rows && f.value.curRow == s.curRow && !f.value.cleared
                  && f.value.clipboard.None?
    ensures Pass(c, s, sized, held, committed).screen.rows == s.rows && Pass(c, s, sized, held, committed).screen.curRow == s.curRow
  {}

  /** An erase leaves nothing retained and is pending from then on. */
  lemma EraseIsPending(s: Sys, screen: Screen, recolored: bool, clip: Option<seq<nat>>)
    requires s.ring.Valid() && Enabled(s, Output(screen, true, recolored, clip))
    ensures
      var t := Next(s, Output(screen, true, recolored, clip));
      t.clearedPending && t.ring.cleared == t.ring.Committed() == t.ring.Oldest() == s.ring.Committed()
  {}

  /** The erase pending at a build rides the frame it makes, to every socket and on a
      screen payload; it stays pending exactly as long as no frame is made, and no frame
      carries the flag without one. */
  lemma EraseRides(s: Sys, held: bool, coalesce: bool)
    requires s.screen.Valid() && s.ring.Valid()
    ensures
      var t := Flush(s, held, coalesce);
      var made := Pass(BuildCache(s, held, coalesce), s.screen, s.sized, held, s.ring.Committed()).frame.Some?;
      && FlightClean(t) && t.screen.Valid() && t.ring.Valid() && t.ring.cleared == s.ring.cleared
      && (t.clearedPending <==> s.clearedPending && !made)
      && (made ==> t.flight.Some? && (t.flight.value.frame.cleared <==> s.clearedPending))
      && (t.flight.Some? ==> t.flight.value.waiting == s.conns.Keys && (t.flight.value.frame.cleared ==> made))
  {
    BuiltIsFrom(BuildCache(s, held, coalesce), s.screen, s.sized, held, s.ring.Committed());
  }

  lemma FlushKeepsClean(s: Sys, held: bool, coalesce: bool, c: nat)
    requires Clean(s, c) && Enabled(s, BuildFrame(held, coalesce)) && s.conns != map[]
    ensures Clean(Next(s, BuildFrame(held, coalesce)), c)
  {
    EraseRides(s, held, coalesce);
  }

  lemma DispatchKeepsClean(s: Sys, d: nat, c: nat)
    requires Clean(s, c) && Enabled(s, Dispatch(d)) && Hears(s, Dispatch(d), c)
    ensures Clean(Next(s, Dispatch(d)), c)
  {
    var fl, n := s.flight.value, s.ring.cleared;
    var t := Deliver(s, d);
    if d == c && !s.clearedPending {
      var k := s.conns[c];
      Writing(k, Outgoing(s, c), fl.stamp, t.conns[c]);
      FrameStoresFrom(fl.frame, n);
      if fl.frame.cleared {
        FlaggedFrameErases(ClientOf(k), fl.frame, n);
      } else {
        ApplyAllFrom(ClientOf(k), Outgoing(s, c), n);
      }
    }
  }

  lemma SnapshotKeepsClean(s: Sys, d: nat, haveThrough: int, replayMax: Option<nat>, c: nat)
    requires Clean(s, c) && Enabled(s, ResumeSnapshot(d, haveThrough, replayMax))
    ensures Clean(Next(s, ResumeSnapshot(d, haveThrough, replayMax)), c)
  {
    var t := Snapshot(s, d, haveThrough, replayMax);
    if c in t.conns { assert ClientOf(t.conns[c]) == ClientOf(s.conns[c]); }
  }

  lemma BatchKeepsClean(s: Sys, d: nat, c: nat)
    requires Clean(s, c) && Enabled(s, BatchWrite(d))
    ensures Clean(Next(s, BatchWrite(d)), c)
  {
    var t := WriteBatch(s, d);
    if d == c && !s.clearedPending && !Erasing(s, c) {
      var k, b := s.conns[c], s.conns[c].batch.value;
      Writing(k, b.Payloads(), b.stamp, t.conns[c]);
      BatchStoresFrom(b, s.ring.cleared);
      ApplyAllFrom(ClientOf(k), b.Payloads(), s.ring.cleared);
    }
  }

  lemma StepKeepsClean(s: Sys, st: Step, c: nat)
    requires Clean(s, c) && Enabled(s, st) && Hears(s, st, c)
    ensures Clean(Next(s, st), c)
  {
    match st
    case BuildFrame(held, coalesce) => if s.conns != map[] { FlushKeepsClean(s, held, coalesce, c); }
    case Dispatch(d) => DispatchKeepsClean(s, d, c);
    case ResumeSnapshot(d, h, m) => SnapshotKeepsClean(s, d, h, m, c);
    case BatchWrite(d) => BatchKeepsClean(s, d, c);
    case _ =>
      var t := Next(s, st);
      if c in t.conns && c in s.conns { assert ClientOf(t.conns[c]) == ClientOf(s.conns[c]); }
  }

  ghost predicate HearsAll(s: Sys, steps: seq<Step>, c: nat)
    requires Runs(s, steps)
    decreases |steps|
  {
    steps != [] ==> Hears(s, steps[0], c) && HearsAll(Next(s, steps[0]), steps[1..], c)
  }

  lemma {:induction false} RunKeepsClean(s: Sys, steps: seq<Step>, c: nat)
    requires Clean(s, c) && Runs(s, steps) && HearsAll(s, steps, c)
    ensures Clean(After(s, steps), c)
    decreases |steps|
  {
    if steps != [] {
      StepKeepsClean(s, steps[0], c);
      RunKeepsClean(Next(s, steps[0]), steps[1..], c);
    }
  }

  // --- the erase ---------------------------------------------------------------------------------

  /** Over every run in which no resume of its own overtakes a frame carrying the flag, a
      socket with nothing in flight or batched, while no erase is pending, has a client
      that holds no erased line. */
  lemma ErasedLinesAreGone(s: Sys, steps: seq<Step>, c: nat)
    requires Initial(s) && Runs(s, steps) && HearsAll(s, steps, c)
    requires var t := After(s, steps);
             c in t.conns && t.conns[c].batch.None? && !Waiting(t.flight, c) && !t.clearedPending
    ensures var t := After(s, steps); NoneBelow(ClientOf(t.conns[c]), t.ring.cleared)
  {
    RunKeepsClean(s, steps, c);
  }

  /** Lines are only ever dropped by the flag. */
  lemma {:induction false} KeepsLine(k: Client, ps: seq<Payload>, i: nat)
    requires i in k.lines && forall p :: p in ps ==> !(p.ScreenMsg? && p.cleared)
    ensures i in ApplyAll(k, ps).lines
    decreases |ps|
  {
    if ps != [] {
      KeepsLineOnce(k, ps[0], i);
      KeepsLine(Apply(k, ps[0]), ps[1..], i);
    }
  }

  lemma KeepsLineOnce(k: Client, p: Payload, i: nat)
    requires i in k.lines && !(p.ScreenMsg? && p.cleared)
    ensures i in Apply(k, p).lines
  {
    match p
    case ScreenMsg(base, _, _, _, _, _, changed, rows) =>
      if base <= i { StoreRowsAt(k.lines, base, changed, rows, i - base); } else { StoreRowsBelow(k.lines, base, changed, rows, i); }
    case ScrollMsg(first, lines) => StoreLinesAt(k.lines, first, lines, i);
    case _ =>
  }

  lemma {:induction false} StoreRowsBelow(store: map<nat, Row>, base: nat, changed: seq<nat>, rows: seq<Row>, i: nat)
    requires i in store && i < base
    ensures i in StoreRows(store, base, changed, rows)
    decreases |changed|
  {
    if changed != [] { StoreRowsBelow(store[base + changed[0] := RowAt(rows, changed[0])], base, changed[1..], rows, i); }
  }

  lemma {:induction false} ChunksKeepLines(first: nat, lines: seq<Row>, size: nat)
    requires size > 0
    ensures forall p :: p in Chunks(first, lines, size) ==> p.ScrollMsg?
    decreases |lines|
  {
    ChunksFit(first, lines, size);
  }

  /** Written to a socket, a frame with the flag leaves it without lines below the frame's
      own exactly when no resume came in between, or there were none. */
  lemma EraseReachesExactly(s: Sys, c: nat, n: nat)
    requires Enabled(s, Dispatch(c)) && s.flight.value.frame.cleared && s.flight.value.frame.changed != []
    requires FrameFrom(s.flight.value.frame, n)
    ensures NoneBelow(ClientOf(Deliver(s, c).conns[c]), n) <==> Current(s, c) || NoneBelow(ClientOf(s.conns[c]), n)
  {
    var fl, k := s.flight.value, s.conns[c];
    Writing(k, Outgoing(s, c), fl.stamp, Deliver(s, c).conns[c]);
    if Current(s, c) {
      FlaggedFrameErases(ClientOf(k), fl.frame, n);
    } else {
      FrameStoresFrom(fl.frame, n);
      ChunksKeepLines(fl.frame.scrollFirst, fl.frame.scroll, SCROLL_CHUNK);
      if NoneBelow(ClientOf(k), n) {
        ApplyAllFrom(ClientOf(k), Outgoing(s, c), n);
      } else {
        var i :| i in ClientOf(k).lines && i < n;
        KeepsLine(ClientOf(k), Outgoing(s, c), i);
      }
    }
  }

  // --- a run in which the flag is stripped ---------------------------------------------------

  lemma {:induction false} Extend(s: Sys, steps: seq<Step>, st: Step)
    requires Runs(s, steps) && After(s, steps).ring.Valid() && Enabled(After(s, steps), st)
    ensures Runs(s, steps + [st]) && After(s, steps + [st]) == Next(After(s, steps), st)
    decreases |steps|
  {
    if steps == [] {
      assert [st][1..] == [];
      RingStaysValid(s, st);
    } else {
      assert (steps + [st])[1..] == steps[1..] + [st];
      Extend(Next(s, steps[0]), steps[1..], st);
    }
  }

  /** One socket shows a screen and holds line 0, since erased; the frame that says so is
      on its way. */
  ghost predicate ErasingLine0(t: Sys) {
    && t.screen.Valid() && !t.clearedPending && t.ring.Valid() && t.ring.cleared == 1 == t.ring.Committed()
    && 0 in t.conns && t.conns[0].ready && t.conns[0].batch.None? && 0 in ClientOf(t.conns[0]).lines
    && t.flight.Some? && t.flight.value.waiting == {0} && 0 in t.flight.value.gens && t.flight.value.gens[0] == t.conns[0].gen
    && t.flight.value.frame.cleared && t.flight.value.frame.scroll == []
  }

  ghost predicate ShowsLine0(t: Sys) {
    && t.screen.Valid() && t.screen.drained == [] && !t.screen.alt && t.sized && t.ring.Valid() && t.ring.Committed() == 1
    && t.cache.titleAnnounced && t.cache.prevTitle == t.screen.title && t.cache.prevAltValid && !t.cache.prevAlt
    && t.conns.Keys == {0} && t.conns[0].ready && t.conns[0].batch.None? && 0 in ClientOf(t.conns[0]).lines
    && t.flight.Some? && t.flight.value.waiting == {}
  }

  lemma FirstLineShown(s: Sys, line: Row) returns (steps: seq<Step>)
    requires Initial(s) && !s.screen.alt
    ensures Runs(s, steps) && ShowsLine0(After(s, steps))
  {
    steps := [];
    Extend(s, steps, Resize(s.screen));
    steps := steps + [Resize(s.screen)];
    Extend(s, steps, Add(0));
    steps := steps + [Add(0)];
    Extend(s, steps, AttachReset(0));
    steps := steps + [AttachReset(0)];
    var output := Output(s.screen.(drained := [line]), false, false, None);
    Extend(s, steps, output);
    steps := steps + [output];
    var t := After(s, steps);
    assert t.conns.Keys == {0};
    Extend(s, steps, BuildFrame(false, false));
    steps := steps + [BuildFrame(false, false)];
    var u := After(s, steps);
    LineInFlight(t);
    Extend(s, steps, Dispatch(0));
    steps := steps + [Dispatch(0)];
    LineArrives(u);
  }

  /** The state before the first build, with line 0 drained and pending. */
  ghost predicate LinePending(t: Sys) {
    && t.screen.Valid() && |t.screen.drained| == 1 && !t.screen.alt && t.sized && t.ring.history == [] && t.ring.Valid()
    && Blank(t.cache) && !t.cache.prevAltValid && t.flight.None?
    && t.conns.Keys == {0} && t.conns[0].ready && t.conns[0].batch.None? && t.conns[0].gen == 0
  }

  ghost predicate LineFlying(u: Sys) {
    && u.screen.Valid() && u.screen.drained == [] && !u.screen.alt && u.sized && u.ring.Valid() && u.ring.Committed() == 1
    && u.cache.titleAnnounced && u.cache.prevTitle == u.screen.title && u.cache.prevAltValid && !u.cache.prevAlt
    && u.conns.Keys == {0} && u.conns[0].ready && u.conns[0].batch.None?
    && u.flight.Some? && u.flight.value.waiting == {0} && 0 in u.flight.value.gens && u.flight.value.gens[0] == u.conns[0].gen
    && u.flight.value.frame.scrollFirst == 0 && |u.flight.value.frame.scroll| == 1
  }

  lemma LineInFlight(t: Sys)
    requires LinePending(t)
    ensures Enabled(t, BuildFrame(false, false)) && LineFlying(Next(t, BuildFrame(false, false)))
  {}

  lemma LineArrives(u: Sys)
    requires LineFlying(u)
    ensures Enabled(u, Dispatch(0)) && ShowsLine0(Next(u, Dispatch(0)))
  {
    var f := u.flight.value.frame;
    var t := Deliver(u, 0);
    Writing(u.conns[0], Outgoing(u, 0), u.flight.value.stamp, t.conns[0]);
    ApplyFrame(ClientOf(u.conns[0]), f);
    var k1 := ClientOf(u.conns[0]).(modes := if f.modes.Some? then f.modes else ClientOf(u.conns[0]).modes,
                                    title := if f.title.Some? then f.title else ClientOf(u.conns[0]).title);
    StoreLinesAt(ApplyAll(k1, ScreenPart(f)).lines, 0, f.scroll, 0);
  }

  /** The whole run: the line shown, an erase, a frame built with the flag, and a resume of
      the same socket before that frame is written. */
  lemma ResumeKeepsErasedLine(s: Sys, line: Row) returns (steps: seq<Step>)
    requires Initial(s) && !s.screen.alt
    ensures Runs(s, steps)
    ensures
      var t := After(s, steps);
      && 0 in t.conns && t.conns[0].batch.None? && !Waiting(t.flight, 0) && !t.clearedPending
      && 0 in ClientOf(t.conns[0]).lines && 0 < t.ring.cleared
  {
    steps := FirstLineShown(s, line);
    var t := After(s, steps);
    var erase := Output(t.screen.(title := t.screen.title + "!"), true, false, None);
    Extend(s, steps, erase);
    steps := steps + [erase];
    ErasesLine0(t);
    var u := After(s, steps);
    Extend(s, steps, BuildFrame(false, false));
    steps := steps + [BuildFrame(false, false)];
    var v := After(s, steps);
    ResumePasses(v);
    Extend(s, steps, ResumeSnapshot(0, 0, None));
    steps := steps + [ResumeSnapshot(0, 0, None)];
    var w := After(s, steps);
    BatchKeepsLine0(w);
    Extend(s, steps, BatchWrite(0));
    steps := steps + [BatchWrite(0)];
    StrippedKeepsLine0(After(s, steps));
    Extend(s, steps, Dispatch(0));
    steps := steps + [Dispatch(0)];
  }

  lemma ErasesLine0(t: Sys)
    requires ShowsLine0(t)
    ensures
      var erase := Output(t.screen.(title := t.screen.title + "!"), true, false, None);
      && Enabled(t, erase) && Next(t, erase).ring.Valid() && Enabled(Next(t, erase), BuildFrame(false, false))
      && Next(Next(t, erase), BuildFrame(false, false)).ring.Valid()
      && ErasingLine0(Next(Next(t, erase), BuildFrame(false, false)))
  {
    var erase := Output(t.screen.(title := t.screen.title + "!"), true, false, None);
    var u := Next(t, erase);
    assert u.screen.title != t.screen.title;
    EraseRides(u, false, false);
    assert u.conns[0] == t.conns[0];
  }

  /** The frame with the flag waits for the socket, whose generation has passed it; the
      client still holds line 0. */
  ghost predicate PassedBy(w: Sys) {
    && w.ring.Valid() && w.ring.cleared == 1 && !w.clearedPending
    && 0 in w.conns && 0 in ClientOf(w.conns[0]).lines
    && w.flight.Some? && w.flight.value.waiting == {0} && 0 in w.flight.value.gens && w.flight.value.gens[0] < w.conns[0].gen
    && w.flight.value.frame.scroll == []
  }

  lemma ResumePasses(v: Sys)
    requires ErasingLine0(v)
    ensures Enabled(v, ResumeSnapshot(0, 0, None)) && v.ring.Valid()
    ensures var w := Next(v, ResumeSnapshot(0, 0, None)); PassedBy(w) && w.conns[0].batch.Some?
  {
    var w := Next(v, ResumeSnapshot(0, 0, None));
    assert w.conns[0].log == v.conns[0].log;
  }

  lemma BatchKeepsLine0(w: Sys)
    requires PassedBy(w) && w.conns[0].batch.Some?
    ensures Enabled(w, BatchWrite(0))
    ensures var x := Next(w, BatchWrite(0)); PassedBy(x) && x.conns[0].batch.None?
  {
    var x := Next(w, BatchWrite(0));
    var b := w.conns[0].batch.value;
    Writing(w.conns[0], b.Payloads(), b.stamp, x.conns[0]);
    ChunksKeepLines(b.first, b.replay, REPLAY_CHUNK);
    KeepsLine(ClientOf(w.conns[0]), b.Payloads(), 0);
  }

  lemma StrippedKeepsLine0(x: Sys)
    requires PassedBy(x) && x.conns[0].batch.None?
    ensures Enabled(x, Dispatch(0))
    ensures
      var t := Next(x, Dispatch(0));
      && 0 in t.conns && t.conns[0].batch.None? && !Waiting(t.flight, 0) && !t.clearedPending
      && 0 in ClientOf(t.conns[0]).lines && 0 < t.ring.cleared
  {
    var fl := x.flight.value;
    assert !Current(x, 0);
    Writing(x.conns[0], Outgoing(x, 0), fl.stamp, Deliver(x, 0).conns[0]);
    ChunksKeepLines(fl.frame.scrollFirst, fl.frame.scroll, SCROLL_CHUNK);
    KeepsLine(ClientOf(x.conns[0]), Outgoing(x, 0), 0);
  }

  // --- the clipboard -----------------------------------------------------------------------

  predicate WroteClip(log: seq<Written>, from: nat, text: seq<nat>) {
    exists i :: from <= i < |log| && log[i].payload == ClipboardMsg(text)
  }

  /** The text waits for a frame, rides one on its way to the socket, or has been written. */
  predicate ClipCarried(s: Sys, c: nat, text: seq<nat>, from: nat) {
    c in s.conns &&
    (|| s.clipboard == Some(text)
     || (Waiting(s.flight, c) && s.flight.value.frame.clipboard == Some(text))
     || WroteClip(s.conns[c].log, from, text))
  }

  /** The socket stays, and no newer text takes the place of one still waiting. */
  predicate ClipKept(s: Sys, st: Step, c: nat) { st != Detach(c) && !(st.Output? && st.clip.Some? && s.clipboard.Some?) }

  lemma LogsGrow(s: Sys, st: Step, c: nat)
    requires s.ring.Valid() && Enabled(s, st) && c in s.conns && st != Detach(c)
    ensures c in Next(s, st).conns && s.conns[c].log <= Next(s, st).conns[c].log
  {}

  lemma StillWrote(a: seq<Written>, b: seq<Written>, from: nat, text: seq<nat>)
    requires a <= b && WroteClip(a, from, text)
    ensures WroteClip(b, from, text)
  {
    var i :| from <= i < |a| && a[i].payload == ClipboardMsg(text);
    assert b[i] == a[i];
  }

  lemma ClipDelivered(s: Sys, c: nat, text: seq<nat>, from: nat)
    requires Enabled(s, Dispatch(c)) && s.flight.value.frame.clipboard == Some(text) && from <= |s.conns[c].log|
    ensures WroteClip(Deliver(s, c).conns[c].log, from, text)
  {
    var f, out, log := s.flight.value.frame, Outgoing(s, c), s.conns[c].log;
    var i := if Current(s, c) then |OptModes(f.modes) + OptTitle(f.title)| else 0;
    assert out[i] == ClipboardMsg(text);
    assert Deliver(s, c).conns[c].log[|log| + i] == Stamped(out, s.flight.value.stamp)[i];
  }

  lemma StepKeepsClip(s: Sys, st: Step, c: nat, text: seq<nat>, from: nat)
    requires s.ring.Valid() && Enabled(s, st) && ClipCarried(s, c, text, from) && ClipKept(s, st, c) && from <= |s.conns[c].log|
    ensures ClipCarried(Next(s, st), c, text, from) && from <= |Next(s, st).conns[c].log|
  {
    LogsGrow(s, st, c);
    if WroteClip(s.conns[c].log, from, text) {
      StillWrote(s.conns[c].log, Next(s, st).conns[c].log, from, text);
    } else if st.Dispatch? && st.c == c && s.flight.value.frame.clipboard == Some(text) {
      ClipDelivered(s, c, text, from);
    }
  }

  ghost predicate ClipKeptAll(s: Sys, steps: seq<Step>, c: nat)
    requires Runs(s, steps)
    decreases |steps|
  {
    steps != [] ==> ClipKept(s, steps[0], c) && ClipKeptAll(Next(s, steps[0]), steps[1..], c)
  }

  lemma {:induction false} RunKeepsClip(s: Sys, steps: seq<Step>, c: nat, text: seq<nat>, from: nat)
    requires Runs(s, steps) && ClipKeptAll(s, steps, c) && ClipCarried(s, c, text, from) && from <= |s.conns[c].log|
    ensures ClipCarried(After(s, steps), c, text, from)
    decreases |steps|
  {
    if steps != [] {
      StepKeepsClip(s, steps[0], c, text, from);
      RunKeepsClip(Next(s, steps[0]), steps[1..], c, text, from);
    }
  }

  /** A clipboard text set while a socket is attached is written to it after that, whatever
      resumes overtake its frame, once no text waits and no frame is on its way; unless the
      socket detaches first, or a newer text replaces it while it waits. */
  lemma ClipboardArrives(s: Sys, set_: Step, steps: seq<Step>, c: nat)
    requires s.ring.Valid() && Enabled(s, set_) && set_.Output? && set_.clip.Some? && c in s.conns
    requires Runs(Next(s, set_), steps) && ClipKeptAll(Next(s, set_), steps, c)
    requires var t := After(Next(s, set_), steps); t.clipboard.None? && !Waiting(t.flight, c)
    ensures var t := After(Next(s, set_), steps); c in t.conns && WroteClip(t.conns[c].log, |s.conns[c].log|, set_.clip.value)
  {
    RunKeepsClip(Next(s, set_), steps, c, set_.clip.value, |s.conns[c].log|);
  }

  /** A build takes the text that waits, sends it on its way with whatever frame it makes,
      and sends none that did not wait. */
  lemma ClipTakenOnce(s: Sys, held: bool, coalesce: bool)
    requires s.screen.Valid() && s.ring.Valid()
    ensures
      var t := Flush(s, held, coalesce);
      && t.clipboard.None? && (s.clipboard.Some? ==> t.flight.Some?)
      && (t.flight.Some? ==> t.flight.value.frame.clipboard == s.clipboard)
  {
    BuiltIsFrom(BuildCache(s, held, coalesce), s.screen, s.sized, held, s.ring.Committed());
  }

  // --- the bell ------------------------------------------------------------------------------

  /** A bell is taken by the first unheld build and by no other, and rides a screen payload. */
  lemma BellRidesOnce(c: Cache, s: Screen, committed: nat)
    requires s.Valid()
    ensures
      var b := Build(c, s, true, false, committed);
      && !b.screen.bell
      && (s.bell ==> b.frame.Some? && b.frame.value.bell && b.frame.value.changed != [])
      && (b.frame.Some? ==> b.frame.value.bell == s.bell)
  {
    var c1 := AltSettled(c, s.alt);
    if s.bell {
      var changed := ChangedRows(c1, s, committed + |Committable(c, s)|);
      assert s.curRow in changed;
    }
  }

  // --- repaints ------------------------------------------------------------------------------

  /** A repaint is owed: a palette has changed since the last build, or nothing is known to
      have been sent. */
  predicate RepaintOwed(s: Sys) { s.palettePending || (s.cache.prevRows == [] && !s.cache.prevCurValid) }

  /** The frame on its way paints every row of the screen it was built from. */
  predicate PaintsAll(s: Sys, rows: seq<Row>) {
    && s.flight.Some? && s.flight.value.picture.Some? && s.flight.value.frame.rows == rows
    && forall y: nat :: y < |rows| ==> y in s.flight.value.frame.changed
  }

  lemma ForgottenRowsAreSent(c: Cache, s: Screen, committed: nat)
    requires c.prevRows == [] && !c.prevCurValid
    ensures
      var b := Build(c, s, true, false, committed);
      b.frame.Some? && b.frame.value.rows == s.rows && forall y: nat :: y < |s.rows| ==> y in b.frame.value.changed
  {
    var c1 := AltSettled(c, s.alt);
    var base := committed + |Committable(c, s)|;
    var d := Diff(c1, s.rows, base, |s.rows|);
    assert forall y: nat :: y in d <==> y < |s.rows| && !c1.Unchanged(base + y, s.rows[y]);
    assert ChangedRows(c1, s, base) == if s.bell then AppendRowIfMissing(d, s.curRow, |s.rows|) else d;
  }

  lemma OwedBuildPaintsAll(s: Sys, held: bool, coalesce: bool)
    requires s.screen.Valid() && RepaintOwed(s)
    ensures RepaintOwed(Flush(s, held, coalesce)) || (!held && s.sized && PaintsAll(Flush(s, held, coalesce), s.screen.rows))
  {
    if s.sized && !held { ForgottenRowsAreSent(BuildCache(s, held, coalesce), s.screen, s.ring.Committed()); }
  }

  /** An owed repaint stays owed through every step, sockets coming, going and resuming among
      them, but the one build that makes a frame: that frame paints every row. */
  lemma RepaintStaysOwed(s: Sys, st: Step)
    requires s.screen.Valid() && s.ring.Valid() && Enabled(s, st) && RepaintOwed(s)
    ensures RepaintOwed(Next(s, st)) || (st.BuildFrame? && !st.held && s.sized && PaintsAll(Next(s, st), s.screen.rows))
  {
    if st.BuildFrame? { OwedBuildPaintsAll(s, st.held, st.coalesce); }
  }

  /** A palette change, a resize, a new socket and a resume each owe a repaint; and a build
      asked to coalesce makes one at once. */
  lemma RepaintsAreOwed(s: Sys, st: Step)
    requires s.ring.Valid() && Enabled(s, st)
    ensures (st.Output? && st.recolored) || st.Resize? || st.AttachReset? || st.ResumeSnapshot? ==> RepaintOwed(Next(s, st))
  {}

  lemma CoalescedBuildPaintsAll(s: Sys)
    requires s.screen.Valid() && s.ring.Valid() && s.sized && s.conns != map[] && Enabled(s, BuildFrame(false, true))
    ensures PaintsAll(Next(s, BuildFrame(false, true)), s.screen.rows)
  {
    ForgottenRowsAreSent(BuildCache(s, false, true), s.screen, s.ring.Committed());
  }

  // --- lines on their way to history ---------------------------------------------------------

  /** The screen is the main one and was at the last build. */
  predicate OnMain(s: Sys) { !s.screen.alt && !s.cache.AltTransitionPending(s.screen.alt) }

  /** No line is lost or made between the screen and the ring: whether a build sends, holds or
      is silent, with anybody attached or nobody, and at a resume, history and what is still
      drained come to the same lines in the same order. */
  lemma LinesReachHistory(s: Sys, st: Step)
    requires s.screen.Valid() && s.ring.Valid() && Enabled(s, st) && s.sized && OnMain(s)
    requires st.BuildFrame? || st.ResumeSnapshot?
    ensures Next(s, st).ring.history + Next(s, st).screen.drained == s.ring.history + s.screen.drained
    ensures st.ResumeSnapshot? || !st.held || s.conns == map[] ==> Next(s, st).screen.drained == []
  {
    if st.BuildFrame? && s.conns != map[] { FlushKeepsLines(s, st.held, st.coalesce); }
  }

  lemma FlushKeepsLines(s: Sys, held: bool, coalesce: bool)
    requires s.screen.Valid() && s.ring.Valid() && s.sized && OnMain(s)
    ensures Flush(s, held, coalesce).ring.history + Flush(s, held, coalesce).screen.drained == s.ring.history + s.screen.drained
    ensures !held ==> Flush(s, held, coalesce).screen.drained == []
  {
    assert Committable(BuildCache(s, held, coalesce), s.screen) == s.screen.drained;
  }

  /** What scrolls off the alternate screen, or off either around a switch between them, is
      never history. */
  lemma AlternateLinesAreNot(s: Sys, st: Step)
    requires s.screen.Valid() && s.ring.Valid() && Enabled(s, st) && !OnMain(s)
    ensures Next(s, st).ring.history == s.ring.history
  {
    if st.BuildFrame? && s.conns != map[] {
      assert Committable(BuildCache(s, st.held, st.coalesce), s.screen) == [];
    }
  }

  /** A frame made after the cursor has moved carries the row it left and the row it entered,
      so that neither shows a cursor that is not there. */
  lemma MovedCursorSendsBothRows(c: Cache, s: Screen, committed: nat)
    requires s.Valid() && c.prevCurValid && !c.AltTransitionPending(s.alt) && c.prevAltValid
    requires c.prevCurRow != s.curRow || c.prevCurCol != s.curCol
    ensures
      var f := Build(c, s, true, false, committed).frame;
      f.Some? && s.curRow in f.value.changed && (c.prevCurRow < |s.rows| ==> c.prevCurRow in f.value.changed)
  {
    var base := committed + |Committable(c, s)|;
    var changed := CursorRows(c, Diff(c, s.rows, base, |s.rows|), |s.rows|, s.curRow, s.curCol);
    assert s.curRow in changed;
  }
}
