/** No stale-after-newer: whatever the interleaving of resumes with frames already
    built, the state payloads on one socket carry non-decreasing snapshot times. */
module DeliveryOrder {
  import opened Prelude
  import opened FlushBuilder
  import opened ClientView
  import opened Delivery

  /** Every state payload in the log was read at or before `t`. */
  predicate NoLater(log: seq<Written>, t: nat) {
    forall i {:trigger log[i]} :: 0 <= i < |log| && log[i].payload.IsState() ==> log[i].stamp <= t
  }

  /** State payloads appear in the order their contents were read. */
  predicate InOrder(log: seq<Written>) {
    forall i, j {:trigger log[i], log[j]} ::
      0 <= i < j < |log| && log[i].payload.IsState() && log[j].payload.IsState() ==> log[i].stamp <= log[j].stamp
  }

  predicate Waits(fl: Option<Flight>, c: nat) { fl.Some? && c in fl.value.waiting && c in fl.value.gens }

  predicate Fits(fl: Flight, k: Conn, c: nat) { c in fl.gens && fl.gens[c] == k.gen }

  ghost predicate ConnOrdered(k: Conn, c: nat, fl: Option<Flight>, clock: nat) {
    && InOrder(k.log) && NoLater(k.log, clock)
    && (k.batch.Some? ==> NoLater(k.log, k.batch.value.stamp) && k.batch.value.stamp <= clock)
    && (Waits(fl, c) ==> fl.value.gens[c] <= k.gen)
    && (Waits(fl, c) && Fits(fl.value, k, c) ==>
          NoLater(k.log, fl.value.stamp) && (k.batch.Some? ==> k.batch.value.stamp <= fl.value.stamp))
  }

  ghost predicate Ordered(s: Sys) {
    && s.ring.Valid()
    && (s.flight.Some? ==> s.flight.value.stamp <= s.clock && s.flight.value.waiting <= s.conns.Keys)
    && forall c :: c in s.conns ==> ConnOrdered(s.conns[c], c, s.flight, s.clock)
  }

  lemma AppendInOrder(log: seq<Written>, ps: seq<Payload>, stamp: nat)
    requires InOrder(log) && NoLater(log, stamp)
    ensures InOrder(log + Stamped(ps, stamp)) && NoLater(log + Stamped(ps, stamp), stamp)
  {
  }

  lemma DurableIsStateless(log: seq<Written>, f: Frame, stamp: nat, t: nat)
    requires InOrder(log) && NoLater(log, t)
    ensures InOrder(log + Stamped(DurablePayloads(f), stamp)) && NoLater(log + Stamped(DurablePayloads(f), stamp), t)
  {
    var ps := DurablePayloads(f);
    ChunksFit(f.scrollFirst, f.scroll, SCROLL_CHUNK);
    forall i | 0 <= i < |ps| ensures !ps[i].IsState() {
      assert ps[i] in OptClip(f.clipboard) || ps[i] in Chunks(f.scrollFirst, f.scroll, SCROLL_CHUNK);
    }
  }

  lemma StepKeepsOrder(s: Sys, st: Step)
    requires Ordered(s) && Enabled(s, st)
    ensures Ordered(Next(s, st))
  {
    var t := Next(s, st);
    forall d | d in t.conns ensures ConnOrdered(t.conns[d], d, t.flight, t.clock) {
      ConnKeepsOrder(s, st, d);
    }
  }

  lemma ConnKeepsOrder(s: Sys, st: Step, d: nat)
    requires Ordered(s) && Enabled(s, st) && d in Next(s, st).conns
    ensures var t := Next(s, st); ConnOrdered(t.conns[d], d, t.flight, t.clock)
  {
    if d in s.conns && !st.Add? {
      var k := s.conns[d];
      assert ConnOrdered(k, d, s.flight, s.clock);
      if st == Dispatch(d) {
        DispatchOrder(s, d);
      } else if st == BatchWrite(d) {
        AppendInOrder(k.log, k.batch.value.Payloads(), k.batch.value.stamp);
      } else if st.BuildFrame? {
        BuildOrder(s, st, d);
      } else if st.ResumeSnapshot? {
        SnapshotOrder(s, st, d);
      } else {
        OtherOrder(s, st, d);
      }
    }
  }

  lemma BuildOrder(s: Sys, st: Step, d: nat)
    requires Ordered(s) && Enabled(s, st) && st.BuildFrame? && d in s.conns
    ensures var t := Next(s, st); ConnOrdered(t.conns[d], d, t.flight, t.clock)
  {
    var t := Next(s, st);
    QuietOrder(s.conns[d], t.conns[d], d, s.flight, t.flight, s.clock, t.clock);
  }

  lemma SnapshotOrder(s: Sys, st: Step, d: nat)
    requires Ordered(s) && Enabled(s, st) && st.ResumeSnapshot? && d in s.conns
    ensures var t := Next(s, st); ConnOrdered(t.conns[d], d, t.flight, t.clock)
  {
    var t := Next(s, st);
    QuietOrder(s.conns[d], t.conns[d], d, s.flight, t.flight, s.clock, t.clock);
  }

  lemma OtherOrder(s: Sys, st: Step, d: nat)
    requires Ordered(s) && Enabled(s, st) && d in s.conns && d in Next(s, st).conns
    requires !st.BuildFrame? && !st.ResumeSnapshot? && !st.Add? && st != Dispatch(d) && st != BatchWrite(d)
    ensures var t := Next(s, st); ConnOrdered(t.conns[d], d, t.flight, t.clock)
  {
    var t := Next(s, st);
    QuietOrder(s.conns[d], t.conns[d], d, s.flight, t.flight, s.clock, t.clock);
  }

  /** A step that writes nothing to a socket: its frame, if it still fits, is the one it
      waited for or as new as the clock, and a new snapshot is as new as the clock. */
  lemma QuietOrder(k: Conn, k1: Conn, c: nat, fl: Option<Flight>, fl1: Option<Flight>, clock: nat, clock1: nat)
    requires ConnOrdered(k, c, fl, clock) && k1.log == k.log && clock <= clock1
    requires k1.batch == k.batch || (k1.batch.Some? && k1.batch.value.stamp == clock1)
    requires Waits(fl1, c) ==> fl1.value.gens[c] <= k1.gen
    requires Waits(fl1, c) && Fits(fl1.value, k1, c) ==>
               k1.batch == k.batch &&
               (fl1.value.stamp == clock1 || (Waits(fl, c) && Fits(fl.value, k, c) && fl1.value.stamp == fl.value.stamp))
    ensures ConnOrdered(k1, c, fl1, clock1)
  {}

  lemma DispatchOrder(s: Sys, c: nat)
    requires Ordered(s) && Enabled(s, Dispatch(c))
    ensures var t := Deliver(s, c); ConnOrdered(t.conns[c], c, t.flight, t.clock)
  {
    var fl, k := s.flight.value, s.conns[c];
    assert ConnOrdered(k, c, s.flight, s.clock);
    if Current(s, c) {
      AppendInOrder(k.log, FramePayloads(fl.frame), fl.stamp);
    } else {
      DurableIsStateless(k.log, fl.frame, fl.stamp, s.clock);
    }
  }

  lemma {:induction false} RunKeepsOrder(s: Sys, steps: seq<Step>)
    requires Ordered(s) && Runs(s, steps)
    ensures Ordered(After(s, steps))
    decreases |steps|
  {
    if steps != [] {
      StepKeepsOrder(s, steps[0]);
      RunKeepsOrder(Next(s, steps[0]), steps[1..]);
    }
  }

  lemma NoStaleAfterNewer(s: Sys, steps: seq<Step>, c: nat)
    requires Initial(s) && Runs(s, steps)
    requires c in After(s, steps).conns
    ensures InOrder(After(s, steps).conns[c].log)
  {
    RunKeepsOrder(s, steps);
    assert ConnOrdered(After(s, steps).conns[c], c, After(s, steps).flight, After(s, steps).clock);
  }
}
