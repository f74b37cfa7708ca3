/** No history hole: exactly which committed lines have been written to a socket. */
module DeliveryHistory {
  import opened Prelude
  import opened WireTypes
  import opened FlushBuilder
  import opened ClientView
  import opened Scrollback
  import opened Delivery

  /** Line `i` was written to the socket as committed history with content `row`. */
  ghost predicate Wrote(log: seq<Written>, i: nat, row: Row) {
    exists n {:trigger log[n]} :: 0 <= n < |log| && Carries(log[n].payload, i, row)
  }

  predicate Carries(p: Payload, i: nat, row: Row) {
    p.ScrollMsg? && p.first <= i < p.first + |p.lines| && p.lines[i - p.first] == row
  }

  /** Line `i` was written with some content. */
  predicate Covers(p: Payload, i: nat) { p.ScrollMsg? && p.first <= i < p.first + |p.lines| }

  ghost predicate Touched(log: seq<Written>, i: nat) {
    exists n {:trigger log[n]} :: 0 <= n < |log| && Covers(log[n].payload, i)
  }

  predicate Waits(fl: Option<Flight>, c: nat) { fl.Some? && c in fl.value.waiting }

  predicate InFrame(f: Frame, i: nat) { f.scrollFirst <= i < f.scrollFirst + |f.scroll| }

  predicate InBatch(b: Option<Batch>, i: nat) {
    b.Some? && b.value.first <= i < b.value.first + |b.value.replay|
  }

  /** Line `i` has been written, or is in the batch or the frame still to be written. */
  ghost predicate Reached(k: Conn, c: nat, fl: Option<Flight>, i: nat) {
    Touched(k.log, i) || InBatch(k.batch, i) || (Waits(fl, c) && InFrame(fl.value.frame, i))
  }

  /** Every history line a payload carries has its committed content. */
  ghost predicate Truthful(p: Payload, history: seq<Row>) {
    p.ScrollMsg? ==> p.first + |p.lines| <= |history| && p.lines == history[p.first..p.first + |p.lines|]
  }

  ghost predicate ConnComplete(k: Conn, c: nat, fl: Option<Flight>, history: seq<Row>) {
    && k.lo <= |history|
    && (forall i: nat :: Among(k.stolen, k.skipped, i) ==> i < |history|)
    && (forall n {:trigger k.log[n]} :: 0 <= n < |k.log| ==> Truthful(k.log[n].payload, history))
    && (k.batch.Some? ==> k.batch.value.first + |k.batch.value.replay| <= |history|
                          && k.batch.value.replay == history[k.batch.value.first..k.batch.value.first + |k.batch.value.replay|])
    && forall i: nat {:trigger Among(k.stolen, k.skipped, i)} :: k.lo <= i < |history| ==> (Among(k.stolen, k.skipped, i) <==> !Reached(k, c, fl, i))
  }

  ghost predicate FrameTrue(fl: Option<Flight>, history: seq<Row>) {
    fl.Some? ==>
      var f := fl.value.frame;
      f.scrollFirst + |f.scroll| <= |history| && f.scroll == history[f.scrollFirst..f.scrollFirst + |f.scroll|]
  }

  ghost predicate HistorySound(s: Sys) {
    && s.ring.Valid()
    && FrameTrue(s.flight, s.ring.history)
    && (s.flight.Some? ==> s.flight.value.waiting <= s.conns.Keys)
    && forall c :: c in s.conns ==> ConnComplete(s.conns[c], c, s.flight, s.ring.history)
  }

  // --- chunking carries exactly its lines ------------------------------------------------

  /** Some payload of `ps` covers line `i`. */
  ghost predicate SomeCovers(ps: seq<Payload>, i: nat) {
    exists n {:trigger ps[n]} :: 0 <= n < |ps| && Covers(ps[n], i)
  }

  ghost predicate AllTruthful(ps: seq<Payload>, history: seq<Row>) {
    forall n {:trigger ps[n]} :: 0 <= n < |ps| ==> Truthful(ps[n], history)
  }

  lemma SomeCoversConcat(a: seq<Payload>, b: seq<Payload>, i: nat)
    ensures SomeCovers(a + b, i) <==> SomeCovers(a, i) || SomeCovers(b, i)
  {
    if SomeCovers(a, i) {
      var n :| 0 <= n < |a| && Covers(a[n], i);
      assert (a + b)[n] == a[n];
    }
    if SomeCovers(b, i) {
      var n :| 0 <= n < |b| && Covers(b[n], i);
      assert (a + b)[|a| + n] == b[n];
    }
  }

  lemma {:induction false} ChunksCover(first: nat, lines: seq<Row>, n: nat, i: nat)
    requires n > 0
    ensures SomeCovers(Chunks(first, lines, n), i) <==> first <= i < first + |lines|
    decreases |lines|
  {
    if lines != [] {
      var m := Min(n, |lines|);
      var head, rest := [ScrollMsg(first, lines[..m])], Chunks(first + m, lines[m..], n);
      assert Chunks(first, lines, n) == head + rest;
      SomeCoversConcat(head, rest, i);
      ChunksCover(first + m, lines[m..], n, i);
      assert SomeCovers(head, i) <==> first <= i < first + m by {
        if first <= i < first + m { assert Covers(head[0], i); }
      }
    }
  }

  lemma {:induction false} ChunksTruthful(first: nat, lines: seq<Row>, n: nat, history: seq<Row>)
    requires n > 0
    requires first + |lines| <= |history| && lines == history[first..first + |lines|]
    ensures AllTruthful(Chunks(first, lines, n), history)
    decreases |lines|
  {
    if lines != [] {
      var m := Min(n, |lines|);
      ChunksTruthful(first + m, lines[m..], n, history);
    }
  }

  lemma NoScrollCoversNothing(ps: seq<Payload>, i: nat, history: seq<Row>)
    requires forall n :: 0 <= n < |ps| ==> !ps[n].ScrollMsg?
    ensures !SomeCovers(ps, i) && AllTruthful(ps, history)
  {
  }

  lemma FrameCovers(f: Frame, i: nat)
    ensures SomeCovers(FramePayloads(f), i) <==> InFrame(f, i)
    ensures SomeCovers(DurablePayloads(f), i) <==> InFrame(f, i)
  {
    var a := OptModes(f.modes) + OptTitle(f.title) + OptClip(f.clipboard) + ScreenPart(f);
    var chunks := Chunks(f.scrollFirst, f.scroll, SCROLL_CHUNK);
    SomeCoversConcat(a, chunks, i);
    SomeCoversConcat(OptClip(f.clipboard), chunks, i);
    ChunksCover(f.scrollFirst, f.scroll, SCROLL_CHUNK, i);
    NoScrollCoversNothing(a, i, []);
    NoScrollCoversNothing(OptClip(f.clipboard), i, []);
  }

  lemma FrameTruthful(f: Frame, history: seq<Row>)
    requires f.scrollFirst + |f.scroll| <= |history| && f.scroll == history[f.scrollFirst..f.scrollFirst + |f.scroll|]
    ensures AllTruthful(FramePayloads(f), history) && AllTruthful(DurablePayloads(f), history)
  {
    ChunksTruthful(f.scrollFirst, f.scroll, SCROLL_CHUNK, history);
  }

  lemma BatchCovers(b: Batch, i: nat)
    ensures SomeCovers(b.Payloads(), i) <==> InBatch(Some(b), i)
  {
    var head := [ModesMsg(b.picture.modes), TitleMsg(b.picture.title)];
    var chunks, win := Chunks(b.first, b.replay, REPLAY_CHUNK), [Window(b.picture)];
    ChunksCover(b.first, b.replay, REPLAY_CHUNK, i);
    NoScrollCoversNothing(head, i, []);
    NoScrollCoversNothing(win, i, []);
    SomeCoversConcat(head, if b.picture.alt then chunks + win else win + chunks, i);
    SomeCoversConcat(chunks, win, i);
    SomeCoversConcat(win, chunks, i);
  }

  lemma BatchTruthful(b: Batch, history: seq<Row>)
    requires b.first + |b.replay| <= |history| && b.replay == history[b.first..b.first + |b.replay|]
    ensures AllTruthful(b.Payloads(), history)
  {
    ChunksTruthful(b.first, b.replay, REPLAY_CHUNK, history);
  }

  lemma LogTouched(log: seq<Written>, ps: seq<Payload>, stamp: nat, i: nat)
    ensures Touched(log + Stamped(ps, stamp), i) <==> Touched(log, i) || SomeCovers(ps, i)
  {
    var all := log + Stamped(ps, stamp);
    if Touched(log, i) {
      var n :| 0 <= n < |log| && Covers(log[n].payload, i);
      assert all[n] == log[n];
    }
    if SomeCovers(ps, i) {
      var n :| 0 <= n < |ps| && Covers(ps[n], i);
      assert all[|log| + n].payload == ps[n];
    }
    if Touched(all, i) {
      var n :| 0 <= n < |all| && Covers(all[n].payload, i);
      if n < |log| { assert log[n] == all[n]; } else { assert ps[n - |log|] == all[n].payload; }
    }
  }

  // --- preservation ---------------------------------------------------------------------

  /** A flush appends to history exactly the lines of the frame it builds. */
  lemma FlushGrows(s: Sys, held: bool, coalesce: bool)
    requires s.ring.Valid()
    ensures var t := Flush(s, held, coalesce);
            && s.ring.history <= t.ring.history
            && FrameTrue(t.flight, t.ring.history)
            && (t.flight.Some? ==> t.flight.value.waiting == s.conns.Keys)
            && (forall i: nat :: |s.ring.history| <= i < |t.ring.history|
                  ==> t.flight.Some? && InFrame(t.flight.value.frame, i))
            && (forall i: nat :: t.flight.Some? && InFrame(t.flight.value.frame, i) ==> |s.ring.history| <= i)
  {
    var b := Pass(BuildCache(s, held, coalesce), s.screen, s.sized, held, s.ring.Committed());
    BuildScrolls(BuildCache(s, held, coalesce), s.screen, s.sized, held, s.ring.Committed());
  }

  lemma BuildScrolls(c: Cache, s: Screen, sized: bool, held: bool, committed: nat)
    ensures var f := Pass(c, s, sized, held, committed).frame; f.Some? ==> f.value.scrollFirst == committed
  {
  }

  /** A new frame: its lines become reachable for every attached socket at once. */
  lemma FlushComplete(s: Sys, held: bool, coalesce: bool, c: nat)
    requires HistorySound(s) && Enabled(s, BuildFrame(held, coalesce)) && c in s.conns
    ensures var t := Flush(s, held, coalesce);
            FrameTrue(t.flight, t.ring.history) && ConnComplete(t.conns[c], c, t.flight, t.ring.history)
  {
    var k := s.conns[c];
    var t := Flush(s, held, coalesce);
    var h, h' := s.ring.history, t.ring.history;
    assert ConnComplete(k, c, s.flight, h);
    FlushGrows(s, held, coalesce);
    forall n | 0 <= n < |k.log| ensures Truthful(k.log[n].payload, h') {
      KeepTruthful(k.log[n].payload, h, h');
    }
    forall i: nat | k.lo <= i < |h'| ensures Among(k.stolen, k.skipped, i) <==> !Reached(k, c, t.flight, i) {
      if i < |h| {
        assert Among(k.stolen, k.skipped, i) <==> !Reached(k, c, s.flight, i);
      } else {
        assert InFrame(t.flight.value.frame, i);
      }
    }
  }

  lemma KeepTruthful(p: Payload, h: seq<Row>, h': seq<Row>)
    requires Truthful(p, h) && h <= h'
    ensures Truthful(p, h')
  {
    if p.ScrollMsg? {
      assert h'[p.first..p.first + |p.lines|] == h[p.first..p.first + |p.lines|];
    }
  }

  lemma DeliverComplete(s: Sys, c: nat)
    requires HistorySound(s) && Enabled(s, Dispatch(c))
    ensures var t := Deliver(s, c); ConnComplete(t.conns[c], c, t.flight, t.ring.history)
  {
    var k, fl, h := s.conns[c], s.flight.value, s.ring.history;
    var t := Deliver(s, c);
    var ps := Outgoing(s, c);
    assert ConnComplete(k, c, s.flight, h);
    FrameTruthful(fl.frame, h);
    forall i: nat | k.lo <= i < |h| ensures Among(k.stolen, k.skipped, i) <==> !Reached(t.conns[c], c, t.flight, i) {
      LogTouched(k.log, ps, fl.stamp, i);
      FrameCovers(fl.frame, i);
      assert Among(k.stolen, k.skipped, i) <==> !Reached(k, c, s.flight, i);
    }
  }

  lemma BatchComplete(s: Sys, c: nat)
    requires HistorySound(s) && Enabled(s, BatchWrite(c))
    ensures var t := WriteBatch(s, c); ConnComplete(t.conns[c], c, t.flight, t.ring.history)
  {
    var k, h := s.conns[c], s.ring.history;
    var b := k.batch.value;
    var t := WriteBatch(s, c);
    assert ConnComplete(k, c, s.flight, h);
    BatchTruthful(b, h);
    forall i: nat | k.lo <= i < |h| ensures Among(k.stolen, k.skipped, i) <==> !Reached(t.conns[c], c, t.flight, i) {
      LogTouched(k.log, b.Payloads(), b.stamp, i);
      BatchCovers(b, i);
      assert Among(k.stolen, k.skipped, i) <==> !Reached(k, c, s.flight, i);
    }
  }

  /** The resuming socket: its replay covers everything from its first line on. */
  lemma SnapshotOwn(s: Sys, c: nat, haveThrough: int, replayMax: Option<nat>)
    requires HistorySound(s) && Enabled(s, ResumeSnapshot(c, haveThrough, replayMax))
    ensures var t := Snapshot(s, c, haveThrough, replayMax);
            ConnComplete(t.conns[c], c, t.flight, t.ring.history)
  {
    var t := Snapshot(s, c, haveThrough, replayMax);
    var k, k1, h, h' := s.conns[c], t.conns[c], s.ring.history, t.ring.history;
    assert ConnComplete(k, c, s.flight, h);
    forall n | 0 <= n < |k.log| ensures Truthful(k1.log[n].payload, h') {
      KeepTruthful(k.log[n].payload, h, h');
    }
    forall i: nat | k1.lo <= i < |h'| ensures Among(k1.stolen, k1.skipped, i) <==> !Reached(k1, c, t.flight, i) {
      if i < k1.batch.value.first {
        if i < |h| {
          assert Among(k.stolen, k.skipped, i) <==> !Reached(k, c, s.flight, i);
        } else {
          NothingBeyond(k, c, s.flight, h, i);
        }
      } else {
        assert InBatch(k1.batch, i);
      }
    }
  }

  /** Any other socket: the lines the resume drained never reach it as a frame. */
  lemma SnapshotOther(s: Sys, c: nat, haveThrough: int, replayMax: Option<nat>, d: nat)
    requires HistorySound(s) && Enabled(s, ResumeSnapshot(c, haveThrough, replayMax)) && d in s.conns && d != c
    ensures var t := Snapshot(s, c, haveThrough, replayMax);
            ConnComplete(t.conns[d], d, t.flight, t.ring.history)
  {
    var t := Snapshot(s, c, haveThrough, replayMax);
    var k, k1, h, h' := s.conns[d], t.conns[d], s.ring.history, t.ring.history;
    assert ConnComplete(k, d, s.flight, h);
    forall n | 0 <= n < |k.log| ensures Truthful(k1.log[n].payload, h') {
      KeepTruthful(k.log[n].payload, h, h');
    }
    forall i: nat | Among(k1.stolen, k1.skipped, i) ensures i < |h'| {
      assert Among(k.stolen, k.skipped, i) || |h| <= i < |h'|;
    }
    forall i: nat | k1.lo <= i < |h'| ensures Among(k1.stolen, k1.skipped, i) <==> !Reached(k1, d, t.flight, i) {
      if i < |h| {
        assert Among(k.stolen, k.skipped, i) <==> !Reached(k, d, s.flight, i);
      } else {
        NothingBeyond(k, d, s.flight, h, i);
      }
    }
  }

  lemma NothingBeyond(k: Conn, c: nat, fl: Option<Flight>, h: seq<Row>, i: nat)
    requires ConnComplete(k, c, fl, h) && FrameTrue(fl, h) && i >= |h|
    ensures !Reached(k, c, fl, i)
  {
  }

  lemma StepKeepsHistory(s: Sys, st: Step)
    requires HistorySound(s) && Enabled(s, st)
    ensures HistorySound(Next(s, st))
  {
    var t := Next(s, st);
    forall d | d in t.conns ensures ConnComplete(t.conns[d], d, t.flight, t.ring.history) {
      ConnKeepsHistory(s, st, d);
    }
    StepKeepsFrame(s, st);
  }

  lemma ConnKeepsHistory(s: Sys, st: Step, d: nat)
    requires HistorySound(s) && Enabled(s, st) && d in Next(s, st).conns
    ensures var t := Next(s, st); ConnComplete(t.conns[d], d, t.flight, t.ring.history)
  {
    var t, h := Next(s, st), s.ring.history;
    if d in s.conns {
      assert ConnComplete(s.conns[d], d, s.flight, h);
      match st
      case BuildFrame(held, coalesce) => FlushComplete(s, held, coalesce, d);
      case Dispatch(c) => if d == c { DeliverComplete(s, c); } else { SameReach(s.conns[d], t.conns[d], d, s.flight, t.flight, h); }
      case ResumeSnapshot(c, hv, m) => if d == c { SnapshotOwn(s, c, hv, m); } else { SnapshotOther(s, c, hv, m, d); }
      case BatchWrite(c) => if d == c { BatchComplete(s, c); }
      case _ => SameReach(s.conns[d], t.conns[d], d, s.flight, t.flight, h);
    }
  }

  lemma SamePrefix(h: seq<Row>, h': seq<Row>, a: nat, b: nat)
    requires a <= b <= |h| && h <= h'
    ensures h'[a..b] == h[a..b]
  {}

  lemma StepKeepsFrame(s: Sys, st: Step)
    requires HistorySound(s) && Enabled(s, st)
    ensures FrameTrue(Next(s, st).flight, Next(s, st).ring.history)
  {
    var h, h' := s.ring.history, Next(s, st).ring.history;
    match st
    case BuildFrame(held, coalesce) => if s.conns != map[] { var d :| d in s.conns; FlushComplete(s, held, coalesce, d); }
    case ResumeSnapshot(_, _, _) =>
      if s.flight.Some? {
        var f := s.flight.value.frame;
        RingStaysValid(s, st);
        SamePrefix(h, h', f.scrollFirst, f.scrollFirst + |f.scroll|);
      }
    case _ =>
  }

  /** A socket the step did not write keeps what it had and what it awaits. */
  lemma SameReach(k: Conn, k1: Conn, c: nat, fl: Option<Flight>, fl1: Option<Flight>, h: seq<Row>)
    requires ConnComplete(k, c, fl, h)
    requires k1 == k.(ready := k1.ready)
    requires Waits(fl, c) <==> Waits(fl1, c)
    requires Waits(fl, c) ==> fl1.value.frame == fl.value.frame
    ensures ConnComplete(k1, c, fl1, h)
  {
    forall i: nat | k1.lo <= i < |h| ensures Among(k1.stolen, k1.skipped, i) <==> !Reached(k1, c, fl1, i) {
      assert Among(k.stolen, k.skipped, i) <==> !Reached(k, c, fl, i);
    }
  }

  lemma {:induction false} RunKeepsHistory(s: Sys, steps: seq<Step>)
    requires HistorySound(s) && Runs(s, steps)
    ensures HistorySound(After(s, steps))
    decreases |steps|
  {
    if steps != [] {
      StepKeepsHistory(s, steps[0]);
      RunKeepsHistory(Next(s, steps[0]), steps[1..]);
    }
  }

  // --- main results ------------------------------------------------------------------------

  /** For a socket with nothing in flight, every committed line from the first one it is
      owed has been written to it, with its committed content, exactly when no other
      socket's resume drained that line into history behind its back, and none of its own
      moved it there and left it out of the replay. */
  lemma HistoryDelivered(s: Sys, steps: seq<Step>, c: nat, i: nat)
    requires Initial(s) && Runs(s, steps)
    requires var t := After(s, steps);
             c in t.conns && t.conns[c].batch.None? && !Waits(t.flight, c)
             && t.conns[c].lo <= i < t.ring.Committed()
    ensures var t := After(s, steps);
            !t.conns[c].Missed(i) <==> Wrote(t.conns[c].log, i, t.ring.history[i])
  {
    RunKeepsHistory(s, steps);
    var t := After(s, steps);
    var k := t.conns[c];
    assert ConnComplete(k, c, t.flight, t.ring.history);
    assert Among(k.stolen, k.skipped, i) <==> !Reached(k, c, t.flight, i);
    if Touched(k.log, i) {
      var n :| 0 <= n < |k.log| && Covers(k.log[n].payload, i);
      TruthfulCarries(k.log[n].payload, t.ring.history, i);
    }
    if Wrote(k.log, i, t.ring.history[i]) {
      var n :| 0 <= n < |k.log| && Carries(k.log[n].payload, i, t.ring.history[i]);
      assert Covers(k.log[n].payload, i);
    }
  }

  lemma TruthfulCarries(p: Payload, history: seq<Row>, i: nat)
    requires Truthful(p, history) && Covers(p, i)
    ensures i < |history| && Carries(p, i, history[i])
  {
    assert p.lines[i - p.first] == history[p.first..p.first + |p.lines|][i - p.first];
  }

  /** A run in which at most one socket is ever attached. */
  ghost predicate Alone(s: Sys, steps: seq<Step>)
    requires Runs(s, steps)
    decreases |steps|
  {
    |s.conns| <= 1 && (steps != [] ==> Alone(Next(s, steps[0]), steps[1..]))
  }

  ghost predicate NothingStolen(s: Sys) { forall c :: c in s.conns ==> s.conns[c].stolen == {} }

  lemma {:induction false} AloneStealsNothing(s: Sys, steps: seq<Step>)
    requires Runs(s, steps) && Alone(s, steps) && NothingStolen(s)
    ensures NothingStolen(After(s, steps))
    decreases |steps|
  {
    if steps != [] {
      var t := Next(s, steps[0]);
      if steps[0].ResumeSnapshot? {
        var c := steps[0].c;
        forall d | d in s.conns ensures d == c { OnlyOne(s.conns.Keys, c, d); }
      }
      assert NothingStolen(t);
      AloneStealsNothing(t, steps[1..]);
    }
  }

  lemma OnlyOne(keys: set<nat>, a: nat, b: nat)
    requires |keys| <= 1 && a in keys && b in keys
    ensures a == b
  {
    if a != b { assert {a, b} <= keys; assert |{a, b}| == 2; CardinalityBound({a, b}, keys); }
  }

  lemma CardinalityBound(a: set<nat>, b: set<nat>)
    requires a <= b
    ensures |a| <= |b|
  {
    assert b == a + (b - a);
  }

  /** No history hole: with one attached client, every line from the first one it is owed
      up to the tail has been written to its socket, but for exactly those its own resumes
      committed and did not replay. */
  lemma NoHistoryHole(s: Sys, steps: seq<Step>, c: nat, i: nat)
    requires Initial(s) && Runs(s, steps) && Alone(s, steps)
    requires var t := After(s, steps);
             c in t.conns && t.conns[c].batch.None? && !Waits(t.flight, c)
             && t.conns[c].lo <= i < t.ring.Committed()
    ensures var t := After(s, steps); Wrote(t.conns[c].log, i, t.ring.history[i]) <==> i !in t.conns[c].skipped
  {
    AloneStealsNothing(s, steps);
    HistoryDelivered(s, steps, c, i);
  }

  /** What "owed" and "skipped" mean. A resume never takes back what was owed; from its
      first replayed line on everything is owed and nothing missed; below it, it adds to
      the lines skipped just those it commits itself. */
  lemma OwedFromReplay(s: Sys, c: nat, haveThrough: int, replayMax: Option<nat>)
    requires s.ring.Valid() && Enabled(s, ResumeSnapshot(c, haveThrough, replayMax))
    ensures
      var t := Next(s, ResumeSnapshot(c, haveThrough, replayMax));
      var k, k1 := s.conns[c], t.conns[c];
      var first := k1.batch.value.first;
      && k1.lo == Min(k.lo, first)
      && (forall i: nat :: first <= i ==> !k1.Missed(i))
      && forall i: nat :: i < first ==>
           (i in k1.stolen <==> i in k.stolen) && (i in k1.skipped <==> i in k.skipped || s.ring.Committed() <= i)
  {
  }

  lemma RunsCons(s: Sys, st: Step, rest: seq<Step>)
    requires s.ring.Valid() && Enabled(s, st) && Runs(Next(s, st), rest)
    ensures Runs(s, [st] + rest) && After(s, [st] + rest) == After(Next(s, st), rest)
  {
    assert ([st] + rest)[1..] == rest;
  }

  /** A line scrolls off between one socket's attach and another's resume. */
  function HoleSteps(s: Sys, line: Row): seq<Step> {
    [Add(0), Add(1), AttachReset(1), Output(s.screen.(drained := [line]), false, false, None), ResumeSnapshot(1, -1, None),
     BatchWrite(1)]
  }

  function HoleState(s: Sys, line: Row): Sys
    requires Initial(s)
  {
    var s1 := Next(s, Add(0));
    var s2 := Next(s1, Add(1));
    var s3 := Next(s2, AttachReset(1));
    Next(s3, Output(s.screen.(drained := [line]), false, false, None))
  }

  lemma HoleOpens(s: Sys, line: Row)
    requires Initial(s) && !s.screen.alt
    ensures
      var s4 := HoleState(s, line);
      && s4.ring.Valid() && Enabled(s4, ResumeSnapshot(1, -1, None))
      && var s5 := Next(s4, ResumeSnapshot(1, -1, None));
         && 0 in s5.conns && 0 in s5.conns[0].stolen && s5.conns[0].lo == 0 && s5.conns[0].batch.None?
         && s5.ring.Valid() && s5.ring.history == [line] && s5.flight.None? && Enabled(s5, BatchWrite(1))
  {
  }

  lemma HoleStays(s: Sys, line: Row)
    requires Initial(s) && !s.screen.alt
    ensures
      var s4 := HoleState(s, line);
      && Enabled(s4, ResumeSnapshot(1, -1, None)) && s4.ring.Valid()
      && var s5 := Next(s4, ResumeSnapshot(1, -1, None));
         && Enabled(s5, BatchWrite(1)) && s5.ring.Valid()
         && var s6 := Next(s5, BatchWrite(1));
            && 0 in s6.conns && 0 in s6.conns[0].stolen && s6.conns[0].lo == 0 && s6.conns[0].batch.None?
            && s6.ring.history == [line] && !Waits(s6.flight, 0)
  {
    HoleOpens(s, line);
  }

  lemma HoleRuns(s: Sys, line: Row)
    requires Initial(s) && !s.screen.alt
    ensures Runs(s, HoleSteps(s, line))
    ensures
      var s4 := HoleState(s, line);
      && Enabled(s4, ResumeSnapshot(1, -1, None)) && s4.ring.Valid()
      && var s5 := Next(s4, ResumeSnapshot(1, -1, None));
         Enabled(s5, BatchWrite(1)) && s5.ring.Valid() && After(s, HoleSteps(s, line)) == Next(s5, BatchWrite(1))
  {
    HoleStays(s, line);
    var output := Output(s.screen.(drained := [line]), false, false, None);
    var resume := ResumeSnapshot(1, -1, None);
    var s1 := Next(s, Add(0));
    var s2 := Next(s1, Add(1));
    var s3 := Next(s2, AttachReset(1));
    var s4 := Next(s3, output);
    var s5 := Next(s4, resume);
    var none: seq<Step> := [];
    RunsCons(s5, BatchWrite(1), none);
    var e := [BatchWrite(1)] + none;
    RunsCons(s4, resume, e);
    var d := [resume] + e;
    RunsCons(s3, output, d);
    var c := [output] + d;
    RunsCons(s2, AttachReset(1), c);
    var b := [AttachReset(1)] + c;
    RunsCons(s1, Add(1), b);
    var a := [Add(1)] + b;
    RunsCons(s, Add(0), a);
    assert [Add(0)] + a == HoleSteps(s, line);
  }

  /** With two sockets the hole is real: a line that is pending when the second
      one resumes is never written to the first, although it is owed. */
  lemma SecondResumeLeavesHole(s: Sys, line: Row)
    requires Initial(s) && !s.screen.alt
    ensures
      var steps := HoleSteps(s, line);
      && Runs(s, steps)
      && var t := After(s, steps);
         && 0 in t.conns && t.conns[0].batch.None? && !Waits(t.flight, 0)
         && t.conns[0].lo == 0 < t.ring.Committed() && t.ring.history[0] == line
         && !Wrote(t.conns[0].log, 0, line)
  {
    HoleRuns(s, line);
    HoleStays(s, line);
    HistoryDelivered(s, HoleSteps(s, line), 0, 0);
  }
}
