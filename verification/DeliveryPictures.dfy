/** The diff stream refines full repaint: over every interleaving, what a socket's
    client displays is exactly the last whole picture completed for it. */
module DeliveryPictures {
  import opened Prelude
  import opened WireTypes
  import opened FlushBuilder
  import opened ClientView
  import opened Scrollback
  import opened Delivery

  /** The client once the batch holding the write lock, if any, is written. */
  function Held(k: Conn): Client {
    if k.batch.Some? then ApplyAll(ClientOf(k), k.batch.value.Payloads()) else ClientOf(k)
  }

  predicate Waiting(fl: Option<Flight>, c: nat) { fl.Some? && c in fl.value.waiting }

  /** The frame in flight was built against this socket's present generation. */
  predicate Fits(fl: Flight, k: Conn, c: nat) { c in fl.gens && fl.gens[c] == k.gen }

  /** The client once everything already built for it has been written. */
  function Eventual(k: Conn, c: nat, fl: Option<Flight>): Client {
    if Waiting(fl, c) && Fits(fl.value, k, c) then ApplyAll(Held(k), FramePayloads(fl.value.frame))
    else Held(k)
  }

  function ScrollEnd(f: Frame): nat { f.scrollFirst + |f.scroll| }

  /** A frame that only carries a clipboard payload. */
  predicate ClipOnly(f: Frame) { f.modes.None? && f.title.None? && f.changed == [] && f.scroll == [] }

  /** A frame still to be written to a socket will do what it should there. */
  ghost predicate PendingSound(k: Conn, c: nat, fl: Flight) {
    if !Fits(fl, k, c) then
      // Superseded: a resume picture at or above its history lines came after it.
      if k.batch.Some? then ScrollEnd(fl.frame) <= k.batch.value.picture.base
      else k.shown.Some? && ScrollEnd(fl.frame) <= k.shown.value.base
    else if c !in fl.ready then k.shown.None? && k.batch.None?
    else if fl.picture.None? then k.ready && ClipOnly(fl.frame)
    else k.ready && Shows(ApplyAll(Held(k), FramePayloads(fl.frame)), fl.picture.value)
  }

  ghost predicate ConnSound(k: Conn, c: nat, fl: Option<Flight>, cache: Cache) {
    && (k.shown.Some? ==> Shows(ClientOf(k), k.shown.value))
    && (k.batch.Some? ==> k.batch.value.first + |k.batch.value.replay| <= k.batch.value.picture.base)
    && (!k.ready ==> k.shown.None? && k.batch.None?)
    && (Waiting(fl, c) ==> c in fl.value.gens && fl.value.gens[c] <= k.gen && PendingSound(k, c, fl.value))
    && (Waiting(fl, c) && k.ready && (c !in fl.value.ready || !Fits(fl.value, k, c)) ==> Blank(cache))
    && (k.ready && !Blank(cache) ==> Shows(Eventual(k, c, fl), CachePicture(cache)))
  }

  ghost predicate FlightSound(s: Sys) {
    s.flight.Some? ==>
      var fl := s.flight.value;
      fl.waiting <= s.conns.Keys && fl.waiting <= fl.gens.Keys && ScrollEnd(fl.frame) <= s.ring.Committed()
  }

  ghost predicate Sound(s: Sys) {
    && s.screen.Valid() && s.ring.Valid()
    && (Blank(s.cache) || Complete(s.cache, |s.screen.rows|))
    && FlightSound(s)
    && forall c :: c in s.conns ==> ConnSound(s.conns[c], c, s.flight, s.cache)
  }

  // --- what writing does to one client ------------------------------------------------

  lemma {:induction false} PayloadsOfConcat(a: seq<Written>, b: seq<Written>)
    ensures PayloadsOf(a + b) == PayloadsOf(a) + PayloadsOf(b)
    decreases |a|
  {
    if a == [] {
      assert a + b == b;
    } else {
      assert (a + b)[1..] == a[1..] + b;
      PayloadsOfConcat(a[1..], b);
    }
  }

  lemma {:induction false} PayloadsOfStamped(ps: seq<Payload>, stamp: nat)
    ensures PayloadsOf(Stamped(ps, stamp)) == ps
    decreases |ps|
  {
    if ps != [] {
      assert Stamped(ps, stamp)[1..] == Stamped(ps[1..], stamp);
      PayloadsOfStamped(ps[1..], stamp);
    }
  }

  lemma Writing(k: Conn, ps: seq<Payload>, stamp: nat, k1: Conn)
    requires k1.log == k.log + Stamped(ps, stamp)
    ensures ClientOf(k1) == ApplyAll(ClientOf(k), ps)
  {
    PayloadsOfConcat(k.log, Stamped(ps, stamp));
    PayloadsOfStamped(ps, stamp);
    ApplyAllConcat(FRESH, PayloadsOf(k.log), ps);
  }

  lemma ClipOnlyIsInert(k: Client, f: Frame)
    requires ClipOnly(f)
    ensures ApplyAll(k, FramePayloads(f)) == k
  {
    assert FramePayloads(f) == OptClip(f.clipboard);
  }

  // --- preservation, step by step -------------------------------------------------------

  lemma ResetKeeps(k: Conn, c: nat, fl: Option<Flight>, cache: Cache)
    requires ConnSound(k, c, fl, cache)
    ensures ConnSound(k, c, fl, cache.Reset())
  {
  }

  lemma FlushConn(s: Sys, held: bool, coalesce: bool, c: nat)
    requires Sound(s) && Enabled(s, BuildFrame(held, coalesce)) && c in s.conns
    ensures var t := Flush(s, held, coalesce);
            c in t.conns && ConnSound(t.conns[c], c, t.flight, t.cache)
  {
    var k := s.conns[c];
    var t := Flush(s, held, coalesce);
    var c0 := BuildCache(s, held, coalesce);
    var b := Pass(c0, s.screen, s.sized, held, s.ring.Committed());
    assert ConnSound(k, c, s.flight, c0) by { ResetKeeps(k, c, s.flight, s.cache); }
    assert Waiting(t.flight, c) ==> Fits(t.flight.value, k, c);
    if b.frame.Some? {
      FlushedFrame(s, held, coalesce, c);
    } else {
      if t.flight.Some? { ClipOnlyIsInert(Held(k), t.flight.value.frame); }
      if s.sized && !held {
        SilentBuild(c0, s.screen, s.ring.Committed());
      } else {
        assert t.cache == c0;
      }
    }
  }

  lemma FlushedFrame(s: Sys, held: bool, coalesce: bool, c: nat)
    requires Sound(s) && Enabled(s, BuildFrame(held, coalesce)) && c in s.conns && s.sized && !held
    requires Build(BuildCache(s, held, coalesce), s.screen, true, false, s.ring.Committed()).frame.Some?
    ensures var t := Flush(s, held, coalesce);
            && t.flight.Some? && t.flight.value.picture.Some?
            && (s.conns[c].ready ==>
                  && CachePicture(t.cache) == t.flight.value.picture.value
                  && Shows(ApplyAll(Held(s.conns[c]), FramePayloads(t.flight.value.frame)), t.flight.value.picture.value))
  {
    var k := s.conns[c];
    var t := Flush(s, held, coalesce);
    var c0 := BuildCache(s, held, coalesce);
    var b := Build(c0, s.screen, true, false, s.ring.Committed());
    assert ConnSound(k, c, s.flight, c0) by { ResetKeeps(k, c, s.flight, s.cache); }
    BuildRecordsPicture(c0, s.screen, s.ring.Committed());
    if k.ready {
      var f := t.flight.value.frame;
      assert f == b.frame.value.(changed := f.changed, clipboard := s.clipboard, cleared := s.clearedPending);
      DiffIsEnough(c0, s.screen, s.ring.Committed(), Held(k), f.changed, s.clipboard, s.clearedPending);
    }
  }

  lemma FlushKeepsSound(s: Sys, held: bool, coalesce: bool)
    requires Sound(s) && Enabled(s, BuildFrame(held, coalesce)) && s.conns != map[]
    ensures Sound(Next(s, BuildFrame(held, coalesce)))
  {
    var t := Flush(s, held, coalesce);
    var c0 := BuildCache(s, held, coalesce);
    if s.sized && !held {
      BuildRecordsPicture(c0, s.screen, s.ring.Committed());
      var b := Build(c0, s.screen, true, false, s.ring.Committed());
      if b.frame.None? { SilentBuild(c0, s.screen, s.ring.Committed()); }
    }
    forall c | c in t.conns ensures ConnSound(t.conns[c], c, t.flight, t.cache) {
      FlushConn(s, held, coalesce, c);
    }
  }

  lemma DeliverConn(s: Sys, c: nat)
    requires Sound(s) && Enabled(s, Dispatch(c))
    ensures var t := Deliver(s, c); ConnSound(t.conns[c], c, t.flight, t.cache)
  {
    var fl := s.flight.value;
    var k := s.conns[c];
    var k1 := Deliver(s, c).conns[c];
    Writing(k, Outgoing(s, c), fl.stamp, k1);
    if Fits(fl, k, c) {
      if fl.picture.None? && c in fl.ready { ClipOnlyIsInert(ClientOf(k), fl.frame); }
    } else {
      DurableKeepsPicture(ClientOf(k), fl.frame, k.shown.value);
    }
  }

  lemma DeliverKeepsSound(s: Sys, c: nat)
    requires Sound(s) && Enabled(s, Dispatch(c))
    ensures Sound(Deliver(s, c))
  {
    var t := Deliver(s, c);
    forall d | d in t.conns ensures ConnSound(t.conns[d], d, t.flight, t.cache) {
      if d == c { DeliverConn(s, c); } else { assert ConnSound(s.conns[d], d, s.flight, s.cache); }
    }
  }

  lemma SnapshotKeepsSound(s: Sys, c: nat, haveThrough: int, replayMax: Option<nat>)
    requires Sound(s) && Enabled(s, ResumeSnapshot(c, haveThrough, replayMax))
    ensures Sound(Snapshot(s, c, haveThrough, replayMax))
  {
    var t := Snapshot(s, c, haveThrough, replayMax);
    forall d | d in t.conns ensures ConnSound(t.conns[d], d, t.flight, t.cache) {
      var k, k1 := s.conns[d], t.conns[d];
      assert ConnSound(k, d, s.flight, s.cache);
      assert ClientOf(k1) == ClientOf(k);
      if d != c { assert Held(k1) == Held(k); }
    }
  }

  lemma BatchKeepsSound(s: Sys, c: nat)
    requires Sound(s) && Enabled(s, BatchWrite(c))
    ensures Sound(WriteBatch(s, c))
  {
    var t := WriteBatch(s, c);
    forall d | d in t.conns ensures ConnSound(t.conns[d], d, t.flight, t.cache) {
      assert ConnSound(s.conns[d], d, s.flight, s.cache);
      if d == c {
        var k, b := s.conns[c], s.conns[c].batch.value;
        Writing(k, b.Payloads(), b.stamp, t.conns[c]);
        BatchShows(ClientOf(k), b.picture, b.first, b.replay);
        assert Held(t.conns[c]) == Held(k);
      }
    }
  }

  lemma StepKeepsSound(s: Sys, st: Step)
    requires Sound(s) && Enabled(s, st)
    ensures Sound(Next(s, st))
  {
    match st
    case BuildFrame(held, coalesce) => if s.conns != map[] { FlushKeepsSound(s, held, coalesce); }
    case Dispatch(c) => DeliverKeepsSound(s, c);
    case ResumeSnapshot(c, h, m) => SnapshotKeepsSound(s, c, h, m);
    case BatchWrite(c) => BatchKeepsSound(s, c);
    case _ =>
      var t := Next(s, st);
      forall d | d in t.conns ensures ConnSound(t.conns[d], d, t.flight, t.cache) {
        if d in s.conns {
          assert ConnSound(s.conns[d], d, s.flight, s.cache);
          ResetKeeps(s.conns[d], d, s.flight, s.cache);
        }
      }
  }

  lemma {:induction false} RunKeepsSound(s: Sys, steps: seq<Step>)
    requires Sound(s) && Runs(s, steps)
    ensures Sound(After(s, steps))
    decreases |steps|
  {
    if steps != [] {
      StepKeepsSound(s, steps[0]);
      RunKeepsSound(Next(s, steps[0]), steps[1..]);
    }
  }

  // --- main results ------------------------------------------------------------------

  /** Over every run, a client displays exactly the last picture completed for it:
      that of the last matching frame written to it or of its own last resume. */
  lemma DiffStreamRefinesRepaint(s: Sys, steps: seq<Step>, c: nat)
    requires Initial(s) && Runs(s, steps)
    requires c in After(s, steps).conns
    ensures var k := After(s, steps).conns[c];
            k.shown.Some? ==> Shows(ClientOf(k), k.shown.value)
  {
    RunKeepsSound(s, steps);
    assert ConnSound(After(s, steps).conns[c], c, After(s, steps).flight, After(s, steps).cache);
  }

  /** Once nothing is in flight to an attached client and the builder has sent
      anything since the last reset, that client displays the builder's picture. */
  lemma QuiescentClientsAgree(s: Sys, steps: seq<Step>, c: nat)
    requires Initial(s) && Runs(s, steps)
    requires var t := After(s, steps);
             c in t.conns && t.conns[c].ready && t.conns[c].batch.None? && !Waiting(t.flight, c) && !Blank(t.cache)
    ensures Shows(ClientOf(After(s, steps).conns[c]), CachePicture(After(s, steps).cache))
  {
    RunKeepsSound(s, steps);
    assert ConnSound(After(s, steps).conns[c], c, After(s, steps).flight, After(s, steps).cache);
  }

  /** A built frame that is written to a client leaves it displaying the screen
      that frame was built from, row for row. */
  lemma DispatchCompletesPicture(s: Sys, steps: seq<Step>, c: nat)
    requires Initial(s) && Runs(s, steps)
    requires var t := After(s, steps);
             Enabled(t, Dispatch(c)) && Current(t, c) && c in t.flight.value.ready && t.flight.value.picture.Some?
    ensures var t := After(s, steps);
            Shows(ClientOf(Deliver(t, c).conns[c]), t.flight.value.picture.value)
  {
    var t := After(s, steps);
    RunKeepsSound(s, steps);
    StepKeepsSound(t, Dispatch(c));
    assert ConnSound(Next(t, Dispatch(c)).conns[c], c, Next(t, Dispatch(c)).flight, t.cache);
  }
}
