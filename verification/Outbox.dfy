/** The client's reliable-input accounting: bytes accepted and not yet acknowledged. */
module Outbox {
  import opened Prelude

  const MAX_OUTBOX_BYTES := 0x10_0000

  /** Counters of one session's input ledger and its unacknowledged chunks. */
  datatype Ledger<T> = Ledger(bytesSent: nat, bytesAcked: nat, outbox: seq<seq<T>>)
  {
    function Unacked(): seq<T> { Flatten(outbox) }

    ghost predicate Valid() { bytesAcked <= bytesSent && |Unacked()| == bytesSent - bytesAcked }

    predicate Fits(data: seq<T>) { |Unacked()| + |data| <= MAX_OUTBOX_BYTES }

    function Send(data: seq<T>): Ledger<T> {
      if Fits(data) then Ledger(bytesSent + |data|, bytesAcked, outbox + [data]) else this
    }

    /** An acknowledgement trims the front; a stale one changes nothing. */
    function Ack(received: nat): Ledger<T> {
      if received <= bytesAcked then this
      else
        var acked := Min(received, bytesSent);
        Ledger(bytesSent, acked, DropFront(outbox, Max(0, acked - bytesAcked)))
    }
  }

  /** What is queued never passes one mebibyte, and input is refused only where it would. */
  lemma OutboxIsBounded<T>(l: Ledger<T>, data: seq<T>, received: nat)
    requires l.Valid() && |l.Unacked()| <= 1048576
    ensures |l.Send(data).Unacked()| <= 1048576 && |l.Ack(received).Unacked()| <= |l.Unacked()|
    ensures data != [] ==> (l.Send(data) == l <==> |l.Unacked()| + |data| > 1048576)
  {
    FlattenSnoc(l.outbox, data);
    if received > l.bytesAcked { DropFrontDrops(l.outbox, Max(0, Min(received, l.bytesSent) - l.bytesAcked)); }
  }

  function EmptyLedger<T>(): Ledger<T> { Ledger(0, 0, []) }

  /** Drop `n` elements from the front of a chunk list, splitting a chunk if needed. */
  function DropFront<T>(outbox: seq<seq<T>>, n: nat): seq<seq<T>>
    decreases |outbox|
  {
    if outbox == [] || n == 0 then outbox
    else if |outbox[0]| <= n then DropFront(outbox[1..], n - |outbox[0]|)
    else [outbox[0][n..]] + outbox[1..]
  }

  lemma {:induction false} DropFrontDrops<T>(outbox: seq<seq<T>>, n: nat)
    requires n <= |Flatten(outbox)|
    ensures Flatten(DropFront(outbox, n)) == Flatten(outbox)[n..]
    decreases |outbox|
  {
    if outbox != [] && n > 0 {
      var head, rest := outbox[0], Flatten(outbox[1..]);
      assert Flatten(outbox) == head + rest;
      if |head| <= n {
        DropFrontDrops(outbox[1..], n - |head|);
        assert (head + rest)[n..] == rest[n - |head|..];
      } else {
        var cut := [head[n..]] + outbox[1..];
        assert cut[1..] == outbox[1..];
        assert (head + rest)[n..] == head[n..] + rest;
      }
    }
  }

  /** What sending and acknowledging mean: the unacknowledged bytes are always the
      accepted stream from the acknowledged position on. */
  lemma LedgerTracksStream<T>(l: Ledger<T>, stream: seq<T>, data: seq<T>, received: nat)
    requires l.Valid() && |stream| == l.bytesSent && l.Unacked() == stream[l.bytesAcked..]
    ensures l.Send(data).Valid() && l.Ack(received).Valid()
    ensures l.Fits(data) ==> l.Send(data).Unacked() == (stream + data)[l.bytesAcked..]
    ensures l.Ack(received).Unacked() == stream[l.Ack(received).bytesAcked..]
    ensures l.Ack(received).bytesAcked == Max(l.bytesAcked, Min(received, l.bytesSent))
  {
    FlattenSnoc(l.outbox, data);
    assert l.Fits(data) ==> (stream + data)[l.bytesAcked..] == stream[l.bytesAcked..] + data;
    if received > l.bytesAcked {
      DropFrontDrops(l.outbox, Min(received, l.bytesSent) - l.bytesAcked);
    }
  }

  class ResumeState<T> {
    var bytesSent: nat
    var bytesAcked: nat
    var outbox: seq<seq<T>>
    var outboxBytes: nat

    ghost function Model(): Ledger<T>
      reads this
    {
      Ledger(bytesSent, bytesAcked, outbox)
    }

    ghost predicate Valid()
      reads this
    {
      Model().Valid() && outboxBytes == bytesSent - bytesAcked
    }

    constructor ()
      ensures Valid() && Model() == EmptyLedger()
    {
      bytesSent, bytesAcked, outbox, outboxBytes := 0, 0, [], 0;
    }

    method SendBinary(data: seq<T>) returns (accepted: bool)
      requires Valid()
      modifies this
      ensures Valid()
      ensures accepted <==> old(Model()).Fits(data)
      ensures Model() == old(Model()).Send(data)
    {
      if outboxBytes + |data| > MAX_OUTBOX_BYTES {
        return false;
      }
      FlattenSnoc(outbox, data);
      outbox := outbox + [data];
      outboxBytes := outboxBytes + |data|;
      bytesSent := bytesSent + |data|;
      accepted := true;
    }

    method ApplyAck(received: nat)
      requires Valid()
      modifies this
      ensures Valid()
      ensures Model() == old(Model()).Ack(received)
    {
      if received <= bytesAcked { return; }
      ghost var was := outbox;
      ghost var drop := Min(received, bytesSent) - bytesAcked;
      DropFrontDrops(was, drop);
      bytesAcked := Min(received, bytesSent);
      var targetUnacked := bytesSent - bytesAcked;
      while |outbox| > 0 && outboxBytes > targetUnacked
        invariant bytesSent == old(bytesSent) && bytesAcked == Min(received, bytesSent)
        invariant outboxBytes == |Flatten(outbox)| >= targetUnacked
        invariant DropFront(was, drop) == DropFront(outbox, outboxBytes - targetUnacked)
        decreases |outbox|
      {
        var head := outbox[0];
        var dropFromHead := outboxBytes - targetUnacked;
        assert Flatten(outbox) == head + Flatten(outbox[1..]);
        if |head| <= dropFromHead {
          outbox := outbox[1..];
          outboxBytes := outboxBytes - |head|;
        } else {
          var cut := [head[dropFromHead..]] + outbox[1..];
          assert cut[0] == head[dropFromHead..] && cut[1..] == outbox[1..];
          assert Flatten(cut) == cut[0] + Flatten(cut[1..]);
          outbox := cut;
          outboxBytes := outboxBytes - dropFromHead;
          break;
        }
      }
      assert outboxBytes == targetUnacked;
    }

    method ResetLedger()
      modifies this
      ensures Valid() && Model() == EmptyLedger()
    {
      bytesSent, bytesAcked, outbox, outboxBytes := 0, 0, [], 0;
    }

    /** The server forgot this ledger; the user is told only if something unacknowledged was dropped. */
    method ResetForgottenLedger() returns (notify: bool)
      requires Valid()
      modifies this
      ensures Valid() && Model() == EmptyLedger()
      ensures notify <==> |old(Model()).Unacked()| > 0
    {
      ghost var unacked := Model().Unacked();
      assert |unacked| == bytesSent - bytesAcked;
      notify := bytesSent > bytesAcked;
      bytesSent, bytesAcked, outbox, outboxBytes := 0, 0, [], 0;
    }
  }
}
