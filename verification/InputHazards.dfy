/** Where the input protocol's assumptions are needed: each of its unfenced windows
    delivers input twice (or not at all) exactly when something falls into it. */
module InputHazards {
  import opened Prelude
  import opened Outbox
  import opened InputProtocol

  /** What the program will have received once the wire drains. */
  function Eventually(s: Link): seq<nat> { s.pty + WireBytes(s.wire) }

  /** A disconnected client and a server that still holds its ledger, nothing in between. */
  ghost predicate Parted(s: Link) {
    Flow(s) && ClientSide(s) && s.status == Down && s.wire == [] && s.present
  }

  /** Resuming: the connection opens and its resume is served. */
  function Resumed(s: Link): Link
    requires s.status == Down && s.wire == []
  {
    Next(Next(s, Open), Serve)
  }

  lemma ResumedState(s: Link)
    requires s.status == Down && s.wire == [] && s.present
    ensures Resumed(s) == s.(status := Waiting, epoch := s.epoch + 1, attached := s.epoch + 1,
                             replies := [ResumeAck(s.count, false)])
  {
  }

  /** After the acknowledgement the whole unacknowledged outbox is on the wire. */
  lemma AckRetransmits(s: Link, n: nat)
    requires ClientSide(s) && s.wire == [] && s.replies == [ResumeAck(n, false)]
    requires s.ledger.bytesAcked <= n <= s.ledger.bytesSent && !(n == 0 && s.ledger.bytesAcked > 0)
    requires s.status != Down
    ensures var t := Next(s, Receive);
            && t.pty == s.pty && From(WireBytes(t.wire), s.base + n) && |WireBytes(t.wire)| == s.ledger.bytesSent - n
  {
    var s1 := s.(replies := []);
    assert s.replies[1..] == [];
    AckContents(s1, n);
    AckNumbers(s.ledger, n);
    RetransmitsOutbox(s.epoch, s.ledger.Ack(n).outbox);
    assert s1.wire + Retransmit(s.epoch, s.ledger.Ack(n).outbox) == Retransmit(s.epoch, s.ledger.Ack(n).outbox);
  }

  /** Two deliveries of one position are never rising. */
  lemma TwiceIsNotRising(xs: seq<nat>, i: nat, j: nat)
    requires i < j < |xs| && xs[i] >= xs[j]
    ensures !Rising(xs)
  {
  }

  /** Input accepted after the resume was sent and before its acknowledgement goes
      out at once and again with the outbox: delivery stays exactly-once if and
      only if there is none. */
  lemma WindowInput(s: Link, n: nat)
    requires Parted(s) && s.count == Delivered(s)
    requires s.ledger.Fits(Span(s.accepted, n))
    ensures var waiting := Next(Next(s, Open), Send(n));
            var served := Next(waiting, Serve);
            var read := if n == 0 then served else Next(served, Serve);
            Rising(Eventually(Next(read, Receive))) <==> n == 0
  {
    var begun := Next(s, Open);
    var waiting := Next(begun, Send(n));
    var served := Next(waiting, Serve);
    var data := Span(s.accepted, n);
    StepKeepsClientSide(s, Open);
    StepKeepsClientSide(begun, Send(n));
    assert waiting.wire[1..] == if n == 0 then [] else [Bytes(s.epoch + 1, data)];
    var read := if n == 0 then served else Next(served, Serve);
    assert read.wire == [] && read.replies == [ResumeAck(s.count, false)];
    assert read.pty == s.pty + data && ClientSide(read);
    AckRetransmits(read, s.count);
    var t := Next(read, Receive);
    StreamRises(s);
    if n == 0 {
      JoinRises(s, t);
    } else {
      // The first window byte is delivered at once, and again with the outbox.
      TwiceIsNotRising(Eventually(t), |s.pty|, |s.pty| + n + (s.accepted - s.base - s.count));
    }
  }

  /** Delivered positions followed by the next ones are rising. */
  lemma JoinRises(s: Link, t: Link)
    requires Stream(s) && t.pty == s.pty && From(WireBytes(t.wire), s.base + Delivered(s))
    ensures Rising(Eventually(t))
  {
    StreamRises(s);
    DeliveredBelow(s);
  }

  lemma DeliveredBelow(s: Link)
    requires Stream(s)
    ensures forall i :: 0 <= i < |s.pty| ==> s.pty[i] < s.base + Delivered(s)
  {
    forall i | 0 <= i < |s.pty| ensures s.pty[i] < s.base + Delivered(s) {
      if i >= s.settled { assert s.pty[i] == s.pty[s.settled..][i - s.settled]; }
    }
  }

  /** Bytes of a superseded connection read after the new resume was served are
      retransmitted all the same: exactly-once if and only if there are none. */
  lemma LateBytes(s: Link, late: seq<nat>)
    requires Parted(s) && s.count == Delivered(s)
    requires From(late, s.base + s.count) && s.count + |late| <= s.ledger.bytesSent
    ensures var waiting := Resumed(s);
            var read := waiting.(pty := waiting.pty + late, count := waiting.count + |late|);
            Rising(Eventually(Next(read, Receive))) <==> late == []
  {
    ResumedState(s);
    var waiting := Resumed(s);
    var read := waiting.(pty := waiting.pty + late, count := waiting.count + |late|);
    AckRetransmits(read, s.count);
    var t := Next(read, Receive);
    if late == [] {
      JoinRises(s, t);
    } else {
      TwiceIsNotRising(Eventually(t), |s.pty|, |s.pty| + |late|);
    }
  }

  /** A recreated ledger whose loss flag never arrived, met by a client that holds no
      acknowledgement: everything is sent again. Exactly-once if and only if the
      ledger was not recreated after all. */
  lemma UnheardLoss(s: Link)
    requires Parted(s) && s.ledger.bytesAcked == 0
    ensures Rising(Eventually(Next(Resumed(s), Receive))) <==> !Recreated(s)
  {
    ResumedState(s);
    var waiting := Resumed(s);
    AckRetransmits(waiting, s.count);
    var t := Next(waiting, Receive);
    if Recreated(s) {
      assert s.pty[s.settled] == s.pty[s.settled..][0] == s.base;
      TwiceIsNotRising(Eventually(t), s.settled, |s.pty|);
    } else {
      JoinRises(s, t);
    }
  }

  /** Input typed before the very first connection: its resume claims sent bytes the
      fresh server has no ledger for, so the client is told the ledger is lost and
      drops them. They are delivered if and only if there are none. */
  lemma BeforeFirstResume(s: Link, n: nat)
    requires Initial(s) && !s.present && s.ledger.Fits(Span(0, n))
    ensures var t := Next(Next(Next(Next(s, Send(n)), Open), Serve), Receive);
            && t.status == Live && t.wire == [] && t.pty == []
            && t.ledger.Unacked() == []
            && (|t.pty| == t.accepted <==> n == 0)
  {
    var a := Next(s, Send(n));
    FlattenSnoc(s.ledger.outbox, Span(0, n));
    var b := Next(a, Open);
    var c := Next(b, Serve);
    assert c.replies == [ResumeAck(0, n > 0)] && c.wire == [];
    var t := Next(c, Receive);
    if n == 0 {
      assert c.ledger.outbox == [[]];
      var empty: seq<seq<nat>> := [[]];
      assert empty[1..] == [];
      assert Retransmit(1, empty) == [];
    }
  }

  // --- a page reloaded under its old key ----------------------------------------------------

  /** A page reloaded in a tab that kept its key: its own counters start over, and the
      server's ledger has counted `kept` bytes from before. Positions and deliveries are
      those of the reloaded page. */
  ghost predicate Reloaded(s: Link, kept: nat) { s.present && s.count == kept && Initial(s.(count := 0)) }

  /** Connect, send `n` bytes that are lost with the connection, and connect again. */
  function ReloadSteps(n: nat): seq<Step> { [Open, Serve, Receive, Send(n), Drop(0), Open, Serve, Receive] }

  lemma RunsCons(s: Link, st: Step, rest: seq<Step>)
    requires Enabled(s, st) && QuietWindow(s, st) && Runs(Next(s, st), rest)
    ensures Runs(s, [st] + rest) && After(s, [st] + rest) == After(Next(s, st), rest)
  {
    assert ([st] + rest)[1..] == rest;
  }

  /** A connection up, its resume served and answered. */
  lemma Reconnects(s: Link, rest: seq<Step>)
    requires s.status == Down && s.wire == [] && s.replies == [] && s.present && s.ledger.bytesAcked == 0
    requires var t := s.(status := Live, epoch := s.epoch + 1, attached := s.epoch + 1, ledger := s.ledger.Ack(s.count),
                         wire := Retransmit(s.epoch + 1, s.ledger.Ack(s.count).outbox));
             Runs(t, rest)
    ensures
      var t := s.(status := Live, epoch := s.epoch + 1, attached := s.epoch + 1, ledger := s.ledger.Ack(s.count),
                  wire := Retransmit(s.epoch + 1, s.ledger.Ack(s.count).outbox));
      Runs(s, [Open, Serve, Receive] + rest) && After(s, [Open, Serve, Receive] + rest) == After(t, rest)
  {
    var up := Next(s, Open);
    var served := Next(up, Serve);
    assert up.wire == [Resume(s.epoch + 1, s.ledger.bytesSent)] && up.wire[1..] == [];
    assert served.replies == [ResumeAck(s.count, false)] && served.replies[1..] == [];
    assert [] + Retransmit(s.epoch + 1, s.ledger.Ack(s.count).outbox) == Retransmit(s.epoch + 1, s.ledger.Ack(s.count).outbox);
    RunsCons(served, Receive, rest);
    RunsCons(up, Serve, [Receive] + rest);
    RunsCons(s, Open, [Serve] + ([Receive] + rest));
    assert [Open] + ([Serve] + ([Receive] + rest)) == [Open, Serve, Receive] + rest;
  }

  /** The state that run ends in: the second acknowledgement has trimmed bytes that no
      server ever received. */
  function ReloadEnds(s: Link, n: nat): Link {
    var l := Ledger(n, 0, [Span(0, n)]).Ack(s.count);
    s.(status := Live, epoch := s.epoch + 2, attached := s.epoch + 2, ledger := l, accepted := n,
       wire := Retransmit(s.epoch + 2, l.outbox))
  }

  /** Bytes sent and lost with the connection, on a connection that had sent none. */
  lemma SendsInVain(t: Link, n: nat, rest: seq<Step>)
    requires t.status == Live && t.wire == [] && t.replies == [] && t.ledger == Ledger(0, 0, []) && t.accepted == 0
    requires 0 < n <= MAX_OUTBOX_BYTES
    requires Runs(t.(status := Down, accepted := n, ledger := Ledger(n, 0, [Span(0, n)])), rest)
    ensures
      && Runs(t, [Send(n), Drop(0)] + rest)
      && After(t, [Send(n), Drop(0)] + rest) == After(t.(status := Down, accepted := n, ledger := Ledger(n, 0, [Span(0, n)])), rest)
  {
    var sent := Next(t, Send(n));
    FlattenSnoc([], Span(0, n));
    assert sent.ledger == Ledger(n, 0, [Span(0, n)]);
    assert Next(sent, Drop(0)) == t.(status := Down, accepted := n, ledger := sent.ledger);
    RunsCons(sent, Drop(0), rest);
    RunsCons(t, Send(n), [Drop(0)] + rest);
    assert [Send(n)] + ([Drop(0)] + rest) == [Send(n), Drop(0)] + rest;
  }

  lemma ReloadRuns(s: Link, kept: nat, n: nat)
    requires Reloaded(s, kept) && 0 < n <= MAX_OUTBOX_BYTES
    ensures Runs(s, ReloadSteps(n)) && After(s, ReloadSteps(n)) == ReloadEnds(s, n)
  {
    var none: seq<Step> := [];
    var t := s.(status := Live, epoch := s.epoch + 1, attached := s.epoch + 1, ledger := s.ledger.Ack(s.count), wire := []);
    var cut := t.(status := Down, accepted := n, ledger := Ledger(n, 0, [Span(0, n)]));
    Reconnects(cut, none);
    var again := [Open, Serve, Receive] + none;
    SendsInVain(t, n, again);
    Reconnects(s, [Send(n), Drop(0)] + again);
    assert [Open, Serve, Receive] + ([Send(n), Drop(0)] + again) == ReloadSteps(n);
  }

  /** After a reload under a ledger that has counted `kept` bytes, the first bytes sent, as
      many as were counted before, can be given up without ever arriving: they are taken
      for acknowledged. */
  lemma ReloadLosesInput(s: Link, kept: nat, n: nat)
    requires Reloaded(s, kept) && 0 < n <= MAX_OUTBOX_BYTES
    ensures
      && Runs(s, ReloadSteps(n))
      && var t := After(s, ReloadSteps(n));
      && t.status == Live && t.accepted == n && t.pty == []
      && From(WireBytes(t.wire), Min(kept, n)) && |WireBytes(t.wire)| == n - Min(kept, n)
      && (kept >= n ==> t.wire == [] && t.ledger.Unacked() == [])
  {
    ReloadRuns(s, kept, n);
    var all := Span(0, n);
    var l := Ledger(n, 0, [all]);
    FlattenSnoc([], all);
    assert Flatten([all]) == all;
    var d := Min(kept, n);
    DropFrontDrops([all], d);
    RetransmitsOutbox(s.epoch + 2, l.Ack(kept).outbox);
    assert all == all[..d] + all[d..];
    FromConcat(all[..d], all[d..], 0);
    if kept >= n {
      assert DropFront([all], n) == DropFront([all][1..], 0) == [];
    }
  }

  lemma ReloadIsNotExact(s: Link, kept: nat)
    requires Reloaded(s, kept) && kept > 0
    ensures Runs(s, ReloadSteps(1)) && NoneReclaimed(ReloadSteps(1)) && !Exact(After(s, ReloadSteps(1)))
  {
    ReloadRuns(s, kept, 1);
    assert After(s, ReloadSteps(1)).ledger.bytesAcked == 1;
  }

  /** Input stays exactly-once over every run that starts at a reload, however often it
      drops and resumes, if and only if the server had counted nothing. */
  lemma ReloadExactly(s: Link, kept: nat)
    requires Reloaded(s, kept)
    ensures (forall steps | Runs(s, steps) && NoneReclaimed(steps) :: Exact(After(s, steps))) <==> kept == 0
  {
    if kept == 0 {
      assert s.(count := 0) == s;
      forall steps | Runs(s, steps) && NoneReclaimed(steps) ensures Exact(After(s, steps)) {
        ExactlyOnce(s, steps);
      }
    } else {
      ReloadIsNotExact(s, kept);
    }
  }
}
