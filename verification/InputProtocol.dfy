/** The client-to-server input protocol over drops and resumes. Every accepted byte
    is named by its position in the stream of accepted bytes, so "delivered once
    and in order" is a statement about positions, whatever the bytes are. */
module InputProtocol {
  import opened Prelude
  import opened Outbox

  /** A message on the wire, with the connection it was sent on. */
  datatype Message = Resume(epoch: nat, sentBytes: nat) | Bytes(epoch: nat, data: seq<nat>)

  datatype Reply = ResumeAck(received: nat, lost: bool) | AckOnly(received: nat)

  datatype Status = Down | Waiting | Live

  /** `ledger` and `status` are the client's; `wire` is everything the server may
      still read, superseded connections first; `replies` is the present
      connection's return path. `present` and `count` are the server's ledger for
      this client, `attached` the connection whose resume it last served, and
      `pty` the positions written to the program, in order. `accepted` counts all
      bytes ever accepted; `base` and `settled` are how many had been accepted and how
      many delivered when the client's ledger was last reset. */
  datatype Link = Link(
    ledger: Ledger<nat>, status: Status, epoch: nat, wire: seq<Message>, replies: seq<Reply>,
    present: bool, count: nat, attached: nat, pty: seq<nat>, accepted: nat, base: nat, settled: nat)

  datatype Step =
    | Send(n: nat)
    | Open
    | Drop(kept: nat)
    | Serve
    | Sweep
    | Receive
    | Reclaim

  /** Positions a, a+1, ..., a+n-1. */
  function Span(a: nat, n: nat): (r: seq<nat>)
    ensures |r| == n && From(r, a)
  {
    seq(n, i => a + i)
  }

  /** `xs` lists consecutive positions starting at `a`. */
  ghost predicate From(xs: seq<nat>, a: int) {
    forall i :: 0 <= i < |xs| ==> xs[i] == a + i
  }

  lemma FromConcat(xs: seq<nat>, ys: seq<nat>, a: int)
    ensures From(xs + ys, a) <==> From(xs, a) && From(ys, a + |xs|)
  {
    if From(xs + ys, a) {
      forall i | 0 <= i < |xs| ensures xs[i] == a + i { assert (xs + ys)[i] == xs[i]; }
      forall i | 0 <= i < |ys| ensures ys[i] == a + |xs| + i { assert (xs + ys)[|xs| + i] == ys[i]; }
    }
  }

  /** One message per outbox chunk; an empty chunk sends nothing. */
  function Retransmit(epoch: nat, outbox: seq<seq<nat>>): seq<Message> {
    if outbox == [] then []
    else (if outbox[0] == [] then [] else [Bytes(epoch, outbox[0])]) + Retransmit(epoch, outbox[1..])
  }

  ghost predicate Enabled(s: Link, st: Step) {
    match st
    case Send(n) => s.ledger.Fits(Span(s.accepted, n))
    case Open => s.status == Down
    case Drop(kept) => s.status != Down && kept <= |s.wire|
    case Serve => s.wire != []
    case Sweep => s.status != Down && s.attached == s.epoch
    case Receive => s.status != Down && s.replies != []
    case Reclaim => true
  }

  function Next(s: Link, st: Step): Link
    requires Enabled(s, st)
  {
    match st
    case Send(n) =>
      var data := Span(s.accepted, n);
      s.(ledger := s.ledger.Send(data), accepted := s.accepted + n,
         wire := if s.status == Down || n == 0 then s.wire else s.wire + [Bytes(s.epoch, data)])
    case Open =>
      s.(status := Waiting, epoch := s.epoch + 1, replies := [],
         wire := s.wire + [Resume(s.epoch + 1, s.ledger.bytesSent)])
    case Drop(kept) => s.(status := Down, wire := s.wire[..kept], replies := [])
    case Serve => ServeMessage(s.(wire := s.wire[1..]), s.wire[0])
    case Sweep => s.(replies := s.replies + [AckOnly(s.count)])
    case Receive => HandleReply(s.(replies := s.replies[1..]), s.replies[0])
    case Reclaim => s.(present := false)
  }

  /** The server reads one message: a resume attaches the ledger, creating it when
      missing; input goes to the program and is counted. */
  function ServeMessage(s: Link, m: Message): Link {
    match m
    case Resume(epoch, sentBytes) =>
      var count := if s.present then s.count else 0;
      var lost := !s.present && sentBytes > 0;
      s.(present := true, count := count, attached := epoch,
         replies := if s.status != Down && epoch == s.epoch then s.replies + [ResumeAck(count, lost)] else s.replies)
    case Bytes(_, data) => s.(pty := s.pty + data, count := s.count + |data|)
  }

  /** The client forgets a ledger the server no longer holds. */
  function Forget(s: Link): Link { s.(ledger := EmptyLedger(), base := s.accepted, settled := |s.pty|, status := Live) }

  function HandleReply(s: Link, r: Reply): Link {
    match r
    case AckOnly(n) => s.(ledger := s.ledger.Ack(n))
    case ResumeAck(n, lost) =>
      if lost || (n == 0 && s.ledger.bytesAcked > 0) then Forget(s)
      else
        var ledger := s.ledger.Ack(n);
        s.(ledger := ledger, status := Live, wire := s.wire + Retransmit(s.epoch, ledger.outbox))
  }

  // --- assumptions on a run ------------------------------------------------------------

  /** No input is accepted between a connection's resume and its acknowledgement. */
  ghost predicate QuietWindow(s: Link, st: Step) { st.Send? && s.status == Waiting ==> st.n == 0 }

  /** How many bytes accepted since the last reset have reached the program. */
  function Delivered(s: Link): int { |s.pty| - s.settled }

  /** The server counts fewer bytes than were delivered under the client's ledger:
      it recreated its own, and the client has yet to learn of it. */
  predicate Recreated(s: Link) { s.count != Delivered(s) }

  /** A recreated ledger is either announced by a loss flag on its way, or will be
      recognised because the client already held an acknowledgement. */
  predicate LossHeard(s: Link) {
    Recreated(s) ==>
      s.ledger.bytesAcked > 0 || (s.status == Waiting && exists i :: 0 <= i < |s.replies| && s.replies[i] == ResumeAck(0, true))
  }

  ghost predicate Runs(s: Link, steps: seq<Step>)
    decreases |steps|
  {
    steps == [] || (Enabled(s, steps[0]) && QuietWindow(s, steps[0]) && Runs(Next(s, steps[0]), steps[1..]))
  }

  function After(s: Link, steps: seq<Step>): Link
    requires Runs(s, steps)
    decreases |steps|
  {
    if steps == [] then s else After(Next(s, steps[0]), steps[1..])
  }

  ghost predicate AllHeard(s: Link, steps: seq<Step>)
    requires Runs(s, steps)
    decreases |steps|
  {
    LossHeard(s) && (steps != [] ==> AllHeard(Next(s, steps[0]), steps[1..]))
  }

  /** A client and a server that have not exchanged anything yet. */
  ghost predicate Initial(s: Link) {
    && s.ledger == EmptyLedger() && s.status == Down && s.epoch == 0 && s.attached == 0
    && s.wire == [] && s.replies == [] && s.count == 0 && s.pty == [] && s.accepted == 0 && s.base == 0 && s.settled == 0
  }

  // --- the invariant ----------------------------------------------------------------------

  /** All input bytes on the wire, in order. */
  function WireBytes(wire: seq<Message>): seq<nat> {
    if wire == [] then []
    else (if wire[0].Bytes? then wire[0].data else []) + WireBytes(wire[1..])
  }

  /** Input never follows a resume on the wire: it waits for the acknowledgement. */
  predicate ResumesLast(wire: seq<Message>) {
    forall i, j :: 0 <= i < j < |wire| && wire[i].Resume? ==> wire[j].Resume?
  }

  predicate Rising(pty: seq<nat>) { forall i, j :: 0 <= i < j < |pty| ==> pty[i] < pty[j] }

  ghost predicate ClientSide(s: Link) {
    && s.ledger.Valid()
    && From(s.ledger.Unacked(), s.base + s.ledger.bytesAcked)
  }

  /** The program has received rising positions from before the last reset, then
      the bytes of the present ledger in order from its first. */
  ghost predicate Stream(s: Link) {
    && s.settled <= |s.pty|
    && Rising(s.pty[..s.settled]) && (forall i :: 0 <= i < s.settled ==> s.pty[i] < s.base)
    && From(s.pty[s.settled..], s.base)
    && s.ledger.bytesAcked <= Delivered(s) <= s.ledger.bytesSent
    && (s.count == Delivered(s) || (s.count == 0 && WireBytes(s.wire) == []))
  }

  /** The wire carries on where the program stopped, resumes last, epochs rising. */
  ghost predicate WireSound(s: Link) {
    && ResumesLast(s.wire)
    && (forall i, j :: 0 <= i < j < |s.wire| && s.wire[i].Resume? && s.wire[j].Resume? ==> s.wire[i].epoch < s.wire[j].epoch)
    && (forall i :: 0 <= i < |s.wire| ==> s.wire[i].epoch <= s.epoch)
    && Delivered(s) + |WireBytes(s.wire)| <= s.ledger.bytesSent
    && From(WireBytes(s.wire), s.base + Delivered(s))
  }

  ghost predicate AcksUpTo(replies: seq<Reply>, from: nat, n: nat) {
    forall i :: from <= i < |replies| ==> replies[i].AckOnly? && replies[i].received <= n
  }

  ghost predicate StatusSound(s: Link) {
    && s.attached <= s.epoch
    && match s.status
       case Down => true
       case Waiting =>
         if s.attached < s.epoch then s.replies == []
         else
           && s.wire == [] && s.replies != []
           && s.replies[0].ResumeAck? && s.replies[0].received == s.count && (s.replies[0].lost ==> s.count == 0)
           && AcksUpTo(s.replies, 1, s.count)
       case Live =>
         && s.count == Delivered(s)
         && Delivered(s) + |WireBytes(s.wire)| == s.ledger.bytesSent
         && (forall i :: 0 <= i < |s.wire| ==> s.wire[i].Bytes?)
         && AcksUpTo(s.replies, 0, s.count)
  }

  /** Everything but the contents of the client's outbox. */
  ghost predicate Flow(s: Link) {
    s.base + s.ledger.bytesSent == s.accepted && Stream(s) && WireSound(s) && StatusSound(s)
  }

  // --- facts about spans and the wire ---------------------------------------------------

  lemma {:induction false} WireBytesConcat(a: seq<Message>, b: seq<Message>)
    ensures WireBytes(a + b) == WireBytes(a) + WireBytes(b)
    decreases |a|
  {
    if a == [] {
      assert a + b == b;
    } else {
      assert (a + b)[1..] == a[1..] + b;
      WireBytesConcat(a[1..], b);
    }
  }

  lemma {:induction false} RetransmitsOutbox(epoch: nat, outbox: seq<seq<nat>>)
    ensures WireBytes(Retransmit(epoch, outbox)) == Flatten(outbox)
    ensures forall i :: 0 <= i < |Retransmit(epoch, outbox)| ==>
              Retransmit(epoch, outbox)[i].Bytes? && Retransmit(epoch, outbox)[i].epoch == epoch
    decreases |outbox|
  {
    if outbox != [] {
      RetransmitsOutbox(epoch, outbox[1..]);
      WireBytesConcat(if outbox[0] == [] then [] else [Bytes(epoch, outbox[0])], Retransmit(epoch, outbox[1..]));
      assert WireBytes([Bytes(epoch, outbox[0])]) == outbox[0] + WireBytes([Bytes(epoch, outbox[0])][1..]);
    }
  }

  lemma {:induction false} ResumesCarryNothing(wire: seq<Message>)
    requires forall i :: 0 <= i < |wire| ==> wire[i].Resume?
    ensures WireBytes(wire) == []
    decreases |wire|
  {
    if wire != [] { ResumesCarryNothing(wire[1..]); }
  }

  lemma OneMessage(m: Message)
    ensures WireBytes([m]) == if m.Bytes? then m.data else []
  {
    assert [m][1..] == [];
  }

  // --- preservation -----------------------------------------------------------------------

  lemma SendKeeps(s: Link, n: nat)
    requires Flow(s) && Enabled(s, Send(n)) && QuietWindow(s, Send(n))
    ensures Flow(Next(s, Send(n)))
  {
    if s.status == Live && n > 0 {
      var data := Span(s.accepted, n);
      var m := Bytes(s.epoch, data);
      WireBytesConcat(s.wire, [m]);
      OneMessage(m);
      FromConcat(WireBytes(s.wire), data, s.base + Delivered(s));
    }
  }

  /** Wire order and epochs, apart from what the bytes are. */
  ghost predicate WireOrdered(wire: seq<Message>, epoch: nat) {
    && ResumesLast(wire)
    && (forall i, j :: 0 <= i < j < |wire| && wire[i].Resume? && wire[j].Resume? ==> wire[i].epoch < wire[j].epoch)
    && (forall i :: 0 <= i < |wire| ==> wire[i].epoch <= epoch)
  }

  lemma ResumeKeepsOrder(wire: seq<Message>, epoch: nat, sent: nat)
    requires WireOrdered(wire, epoch)
    ensures WireOrdered(wire + [Resume(epoch + 1, sent)], epoch + 1)
  {}

  lemma PrefixKeepsOrder(wire: seq<Message>, epoch: nat, kept: nat)
    requires WireOrdered(wire, epoch) && kept <= |wire|
    ensures WireOrdered(wire[..kept], epoch)
  {}

  lemma ResumeCarriesNothing(wire: seq<Message>, epoch: nat, sent: nat)
    ensures WireBytes(wire + [Resume(epoch, sent)]) == WireBytes(wire)
  {
    WireBytesConcat(wire, [Resume(epoch, sent)]);
    OneMessage(Resume(epoch, sent));
  }

  lemma OpenKeepsWire(s: Link)
    requires Flow(s) && Enabled(s, Open)
    ensures WireSound(Next(s, Open)) && WireBytes(Next(s, Open).wire) == WireBytes(s.wire)
  {
    ResumeCarriesNothing(s.wire, s.epoch + 1, s.ledger.bytesSent);
    OpenKeepsOrder(s);
  }

  lemma OpenKeepsOrder(s: Link)
    requires WireSound(s) && Enabled(s, Open)
    ensures WireOrdered(Next(s, Open).wire, s.epoch + 1)
  {
    assert WireOrdered(s.wire, s.epoch);
    ResumeKeepsOrder(s.wire, s.epoch, s.ledger.bytesSent);
  }

  lemma OpenKeeps(s: Link)
    requires Flow(s) && Enabled(s, Open)
    ensures Flow(Next(s, Open))
  {
    OpenKeepsWire(s);
  }

  lemma DropKeeps(s: Link, kept: nat)
    requires Flow(s) && Enabled(s, Drop(kept))
    ensures Flow(Next(s, Drop(kept)))
  {
    var t := Next(s, Drop(kept));
    var lost := s.wire[kept..];
    WireBytesConcat(t.wire, lost);
    assert t.wire + lost == s.wire;
    FromConcat(WireBytes(t.wire), WireBytes(lost), s.base + Delivered(s));
    PrefixKeepsOrder(s.wire, s.epoch, kept);
    assert |WireBytes(t.wire)| <= |WireBytes(s.wire)|;
    assert WireSound(t);
    assert Stream(t);
  }

  lemma ServeKeeps(s: Link)
    requires Flow(s) && Enabled(s, Serve)
    ensures Flow(Next(s, Serve))
  {
    var m, rest := s.wire[0], s.wire[1..];
    var t := Next(s, Serve);
    assert WireBytes(s.wire) == (if m.Bytes? then m.data else []) + WireBytes(rest);
    if m.Resume? {
      assert forall i :: 0 <= i < |rest| ==> rest[i] == s.wire[i + 1];
      ResumesCarryNothing(rest);
      if s.status == Waiting && m.epoch == s.epoch {
        NothingAfter(s.wire, s.epoch);
      }
    } else {
      ServeBytes(s);
    }
  }

  /** The present connection's resume is the last thing on the wire. */
  lemma NothingAfter(wire: seq<Message>, epoch: nat)
    requires wire != [] && wire[0].Resume? && wire[0].epoch == epoch && ResumesLast(wire)
    requires forall i, j :: 0 <= i < j < |wire| && wire[i].Resume? && wire[j].Resume? ==> wire[i].epoch < wire[j].epoch
    requires forall i :: 0 <= i < |wire| ==> wire[i].epoch <= epoch
    ensures |wire| == 1
  {
    var next := if |wire| > 1 then 1 else 0;
    assert wire[next].epoch <= epoch;
  }

  lemma ServeBytes(s: Link)
    requires Flow(s) && s.wire != [] && s.wire[0].Bytes?
    ensures Flow(Next(s, Serve))
  {
    var t := Next(s, Serve);
    var data, rest := s.wire[0].data, s.wire[1..];
    assert WireBytes(s.wire) == data + WireBytes(rest);
    FromConcat(data, WireBytes(rest), s.base + Delivered(s));
    FromConcat(s.pty[s.settled..], data, s.base);
    assert forall i :: 0 <= i < |rest| ==> rest[i] == s.wire[i + 1];
    assert t.pty[..s.settled] == s.pty[..s.settled];
    assert t.pty[s.settled..] == s.pty[s.settled..] + data;
  }

  lemma ForgetKeeps(s: Link)
    requires Stream(s) && s.base + s.ledger.bytesSent == s.accepted
    requires s.count == 0 && s.wire == [] && s.attached <= s.epoch && AcksUpTo(s.replies, 0, 0)
    ensures Flow(Forget(s))
  {
    StreamRises(s);
    assert s.pty[..|s.pty|] == s.pty && s.pty[|s.pty|..] == [];
  }

  lemma StreamRises(s: Link)
    requires Stream(s)
    ensures Rising(s.pty) && forall i :: 0 <= i < |s.pty| ==> s.pty[i] < s.base + s.ledger.bytesSent
  {
    forall i | s.settled <= i < |s.pty| ensures s.pty[i] == s.base + (i - s.settled) {
      assert s.pty[i] == s.pty[s.settled..][i - s.settled];
    }
    forall i, j | 0 <= i < j < |s.pty| ensures s.pty[i] < s.pty[j] {
      if j < s.settled { assert s.pty[..s.settled][i] < s.pty[..s.settled][j]; }
    }
  }

  lemma ReceiveKeeps(s: Link)
    requires Flow(s) && Enabled(s, Receive) && LossHeard(s)
    requires s.ledger.Valid() && From(s.ledger.Unacked(), s.base + s.ledger.bytesAcked)
    ensures Flow(Next(s, Receive))
  {
    var r := s.replies[0];
    var s1 := s.(replies := s.replies[1..]);
    assert forall i :: 0 <= i < |s1.replies| ==> s1.replies[i] == s.replies[i + 1];
    if r.AckOnly? {
      AckNumbers(s.ledger, r.received);
    } else if r.lost || (r.received == 0 && s.ledger.bytesAcked > 0) {
      ForgetKeeps(s1);
    } else {
      NoLossFlag(s);
      RetransmitKeeps(s1, r.received);
    }
  }

  lemma AckNumbers(l: Ledger<nat>, n: nat)
    requires l.bytesAcked <= l.bytesSent && n <= l.bytesSent
    ensures l.Ack(n).bytesAcked == Max(l.bytesAcked, n) && l.Ack(n).bytesSent == l.bytesSent
  {
  }

  /** Only a loss-flagged acknowledgement, or a held one, meets a recreated ledger. */
  lemma NoLossFlag(s: Link)
    requires LossHeard(s) && StatusSound(s) && s.status == Waiting && s.attached == s.epoch
    requires !s.replies[0].lost && !(s.replies[0].received == 0 && s.ledger.bytesAcked > 0)
    requires s.count == Delivered(s) || s.count == 0
    ensures s.count == Delivered(s)
  {
  }

  lemma RetransmitKeeps(s: Link, n: nat)
    requires Stream(s) && s.base + s.ledger.bytesSent == s.accepted
    requires s.wire == [] && s.attached == s.epoch
    requires n == s.count == Delivered(s) && AcksUpTo(s.replies, 0, n)
    requires s.ledger.Valid() && From(s.ledger.Unacked(), s.base + s.ledger.bytesAcked)
    requires !(n == 0 && s.ledger.bytesAcked > 0)
    ensures Flow(HandleReply(s, ResumeAck(n, false)))
  {
    var l := s.ledger.Ack(n);
    AckNumbers(s.ledger, n);
    AckContents(s, n);
    RetransmitsOutbox(s.epoch, l.outbox);
    assert s.wire + Retransmit(s.epoch, l.outbox) == Retransmit(s.epoch, l.outbox);
    RetransmittedWire(HandleReply(s, ResumeAck(n, false)), l.outbox);
  }

  /** A wire holding exactly the outbox continues the delivered stream. */
  lemma RetransmittedWire(t: Link, outbox: seq<seq<nat>>)
    requires Stream(t) && t.wire == Retransmit(t.epoch, outbox) && WireBytes(t.wire) == Flatten(outbox)
    requires |Flatten(outbox)| == t.ledger.bytesSent - Delivered(t)
    requires From(Flatten(outbox), t.base + Delivered(t))
    requires forall i :: 0 <= i < |t.wire| ==> t.wire[i].Bytes? && t.wire[i].epoch == t.epoch
    ensures WireSound(t)
  {
  }

  // --- the outbox ------------------------------------------------------------------------

  /** An acknowledgement trims the outbox to the bytes past it. */
  lemma AckContents(s: Link, n: nat)
    requires ClientSide(s)
    ensures ClientSide(s.(ledger := s.ledger.Ack(n)))
  {
    if n > s.ledger.bytesAcked {
      var k := Min(n, s.ledger.bytesSent) - s.ledger.bytesAcked;
      var u := s.ledger.Unacked();
      DropFrontDrops(s.ledger.outbox, k);
      assert u == u[..k] + u[k..];
      FromConcat(u[..k], u[k..], s.base + s.ledger.bytesAcked);
    }
  }

  lemma StepKeepsClientSide(s: Link, st: Step)
    requires ClientSide(s) && Enabled(s, st) && s.base + s.ledger.bytesSent == s.accepted
    ensures ClientSide(Next(s, st))
  {
    match st
    case Send(n) =>
      var data := Span(s.accepted, n);
      FlattenSnoc(s.ledger.outbox, data);
      FromConcat(s.ledger.Unacked(), data, s.base + s.ledger.bytesAcked);
    case Receive =>
      if s.replies[0].AckOnly? || !(s.replies[0].lost || (s.replies[0].received == 0 && s.ledger.bytesAcked > 0)) {
        AckContents(s.(replies := s.replies[1..]), s.replies[0].received);
      }
    case _ =>
  }

  lemma StepKeepsFlow(s: Link, st: Step)
    requires Flow(s) && ClientSide(s) && Enabled(s, st) && QuietWindow(s, st) && LossHeard(s)
    ensures Flow(Next(s, st))
  {
    match st
    case Send(n) => SendKeeps(s, n);
    case Open => OpenKeeps(s);
    case Drop(kept) => DropKeeps(s, kept);
    case Serve => ServeKeeps(s);
    case Sweep =>
    case Receive => ReceiveKeeps(s);
    case Reclaim =>
  }

  lemma {:induction false} RunKeepsSound(s: Link, steps: seq<Step>)
    requires Flow(s) && ClientSide(s) && Runs(s, steps) && AllHeard(s, steps)
    ensures Flow(After(s, steps)) && ClientSide(After(s, steps))
    decreases |steps|
  {
    if steps != [] {
      StepKeepsFlow(s, steps[0]);
      StepKeepsClientSide(s, steps[0]);
      RunKeepsSound(Next(s, steps[0]), steps[1..]);
    }
  }

  // --- main results ------------------------------------------------------------------------

  lemma InitialSound(s: Link)
    requires Initial(s)
    ensures Flow(s) && ClientSide(s)
  {
  }

  /** Whatever the drops, resumes and reclaimed ledgers, no byte is delivered twice
      and none overtakes another. */
  lemma NoByteTwice(s: Link, steps: seq<Step>)
    requires Initial(s) && Runs(s, steps) && AllHeard(s, steps)
    ensures Rising(After(s, steps).pty)
  {
    InitialSound(s);
    RunKeepsSound(s, steps);
    StreamRises(After(s, steps));
  }

  predicate NoneReclaimed(steps: seq<Step>) { forall i :: 0 <= i < |steps| ==> !steps[i].Reclaim? }

  /** The server has counted exactly what was delivered; while it has no ledger yet,
      nothing but resumes is under way. */
  ghost predicate Kept(s: Link) {
    && s.settled == 0 && s.count == |s.pty| && (s.status == Down ==> s.replies == [])
    && (!s.present ==> s.count == 0 && s.status != Live && s.replies == [] && OnlyResumes(s.wire))
  }

  predicate OnlyResumes(wire: seq<Message>) { forall i :: 0 <= i < |wire| ==> wire[i].Resume? }

  lemma StepKeepsKept(s: Link, st: Step)
    requires Kept(s) && Flow(s) && Enabled(s, st) && QuietWindow(s, st) && !st.Reclaim?
    ensures LossHeard(s) && Kept(Next(s, st))
  {}

  lemma {:induction false} RunKeepsKept(s: Link, steps: seq<Step>)
    requires Kept(s) && Flow(s) && ClientSide(s) && Runs(s, steps) && NoneReclaimed(steps)
    ensures var t := After(s, steps); Kept(t) && Flow(t) && ClientSide(t)
    decreases |steps|
  {
    if steps != [] {
      StepKeepsKept(s, steps[0]);
      StepKeepsFlow(s, steps[0]);
      StepKeepsClientSide(s, steps[0]);
      RunKeepsKept(Next(s, steps[0]), steps[1..]);
    }
  }

  /** What exactly-once means of a state: the program has received, in order, a prefix of
      the bytes accepted since the last reset, the outbox holds those from the acknowledged
      position on, and acknowledged <= received <= sent. */
  ghost predicate Exact(t: Link) {
    && From(t.pty, t.base)
    && From(t.ledger.Unacked(), t.base + t.ledger.bytesAcked)
    && |t.ledger.Unacked()| == t.accepted - t.base - t.ledger.bytesAcked
    && t.ledger.bytesAcked <= t.count == |t.pty| <= t.ledger.bytesSent == t.accepted - t.base
  }

  /** Exactly-once ordered input while the server keeps the ledger, from a session's first
      connection on: over any number of drops and resumes, whether the first resume makes
      the ledger or finds it. */
  lemma ExactlyOnce(s: Link, steps: seq<Step>)
    requires Initial(s) && Runs(s, steps) && NoneReclaimed(steps)
    ensures Exact(After(s, steps))
  {
    InitialSound(s);
    RunKeepsKept(s, steps);
    KeptMeans(After(s, steps));
  }

  lemma KeptMeans(t: Link)
    requires Kept(t) && Flow(t) && ClientSide(t)
    ensures Exact(t)
  {
    assert t.pty[t.settled..] == t.pty;
  }

  /** Nothing is accepted before the server has served the first resume. */
  ghost predicate Unhurried(s: Link, steps: seq<Step>)
    requires Runs(s, steps)
    decreases |steps|
  {
    (!s.present ==> s.accepted == 0) && (steps != [] ==> Unhurried(Next(s, steps[0]), steps[1..]))
  }

  /** No reset has happened, and none is on its way. */
  ghost predicate NeverReset(s: Link) {
    && s.base == 0
    && (forall i :: 0 <= i < |s.replies| && s.replies[i].ResumeAck? ==> !s.replies[i].lost)
    && (!s.present ==> forall i :: 0 <= i < |s.wire| && s.wire[i].Resume? ==> s.wire[i].sentBytes == 0)
  }

  lemma StepKeepsNeverReset(s: Link, st: Step)
    requires Kept(s) && Flow(s) && NeverReset(s) && Enabled(s, st) && !st.Reclaim? && (!s.present ==> s.accepted == 0)
    ensures NeverReset(Next(s, st))
  {}

  ghost predicate Steady(s: Link) { Kept(s) && Flow(s) && ClientSide(s) && NeverReset(s) }

  lemma StepKeepsSteady(s: Link, st: Step)
    requires Steady(s) && Enabled(s, st) && QuietWindow(s, st) && !st.Reclaim? && (!s.present ==> s.accepted == 0)
    ensures Steady(Next(s, st))
  {
    StepKeepsKept(s, st);
    StepKeepsFlow(s, st);
    StepKeepsClientSide(s, st);
    StepKeepsNeverReset(s, st);
  }

  /** What every such step keeps, every such run keeps. */
  lemma {:induction false} RunKeeps(inv: Link -> bool, s: Link, steps: seq<Step>)
    requires inv(s) && Runs(s, steps) && NoneReclaimed(steps) && Unhurried(s, steps)
    requires forall x, st | inv(x) && Enabled(x, st) && QuietWindow(x, st) && !st.Reclaim? && (!x.present ==> x.accepted == 0) ::
               inv(Next(x, st))
    ensures inv(After(s, steps))
    decreases |steps|
  {
    if steps != [] {
      assert inv(Next(s, steps[0]));
      RunKeeps(inv, Next(s, steps[0]), steps[1..]);
    }
  }

  /** If besides nothing is accepted before the first resume has been served, no accepted
      byte is ever given up: the prefix is one of all the bytes accepted. */
  lemma NothingGivenUp(s: Link, steps: seq<Step>)
    requires Initial(s) && Runs(s, steps) && NoneReclaimed(steps) && Unhurried(s, steps)
    ensures Exact(After(s, steps)) && After(s, steps).base == 0
  {
    InitialSound(s);
    var inv := x => Steady(x);
    forall x, st | inv(x) && Enabled(x, st) && QuietWindow(x, st) && !st.Reclaim? && (!x.present ==> x.accepted == 0)
      ensures inv(Next(x, st))
    {
      StepKeepsSteady(x, st);
    }
    RunKeeps(inv, s, steps);
    KeptMeans(After(s, steps));
  }

  /** Every byte accepted since the last reset has reached the program. */
  ghost predicate AllDelivered(t: Link) {
    t.settled <= |t.pty| && From(t.pty[t.settled..], t.base) && t.base + |t.pty| - t.settled == t.accepted
  }

  /** Nothing is left behind on a live connection whose wire has drained. */
  lemma DrainedMeansDelivered(s: Link, steps: seq<Step>)
    requires Initial(s) && Runs(s, steps) && AllHeard(s, steps)
    ensures var t := After(s, steps); t.status == Live && t.wire == [] ==> AllDelivered(t)
  {
    InitialSound(s);
    RunKeepsSound(s, steps);
    DrainedMeans(After(s, steps));
  }

  lemma DrainedMeans(t: Link)
    requires Flow(t)
    ensures t.status == Live && t.wire == [] ==> AllDelivered(t)
  {
  }
}
