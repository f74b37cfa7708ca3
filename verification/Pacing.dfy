/** Two token buckets, one on each end of a connection. The client's fills more slowly than
    the server's, and the difference covers exactly half a second of delay variation. */
module Pacing {
  import opened Prelude

  const BURST := 4.0
  const CLIENT_PERIOD := 2.0
  const SERVER_PERIOD := 1.5
  const JITTER := 0.5

  /** Tokens at the time of the last look; full before the first. */
  datatype Bucket = Bucket(tokens: real, last: real)

  function Least(a: real, b: real): real { if a <= b then a else b }

  function Refilled(b: Bucket, period: real, now: real): real
    requires period > 0.0
  {
    Least(BURST, b.tokens + (now - b.last) / period)
  }

  predicate Grants(b: Bucket, period: real, now: real)
    requires period > 0.0
  {
    Refilled(b, period, now) >= 1.0
  }

  function Taken(b: Bucket, period: real, now: real): Bucket
    requires period > 0.0
  {
    var t := Refilled(b, period, now);
    Bucket(if t >= 1.0 then t - 1.0 else t, now)
  }

  class TokenBucket {
    const period: real
    var tokens: real
    var last: real
    var fresh_: bool

    ghost function Model(now: real): Bucket
      reads this
    {
      if fresh_ then Bucket(BURST, now) else Bucket(tokens, last)
    }

    constructor (seconds: real)
      requires seconds > 0.0
      ensures period == seconds && fresh_
    {
      period, tokens, last, fresh_ := seconds, BURST, 0.0, true;
    }

    /** A token, or how long until there is one. */
    method Take(now: real) returns (wait: real)
      requires period > 0.0
      modifies this
      ensures !fresh_ && Model(now) == Taken(old(Model(now)), period, now)
      ensures wait == if Grants(old(Model(now)), period, now) then 0.0 else (1.0 - tokens) * period
      ensures wait == 0.0 <==> Grants(old(Model(now)), period, now)
    {
      if fresh_ {
        tokens := BURST;
      } else {
        tokens := tokens + (now - last) / period;
      }
      if tokens > BURST { tokens := BURST; }
      if fresh_ { assert (now - now) / period == 0.0; }
      last := now;
      fresh_ := false;
      if tokens < 1.0 {
        LessTimes(0.0, 1.0 - tokens, period);
        return (1.0 - tokens) * period;
      }
      tokens := tokens - 1.0;
      wait := 0.0;
    }
  }

  /** A taker told to wait is granted a token once it has. */
  lemma WaitingIsEnough(b: Bucket, period: real, now: real, later: real)
    requires period > 0.0 && !Grants(b, period, now)
    requires later >= now + (1.0 - Taken(b, period, now).tokens) * period
    ensures Grants(Taken(b, period, now), period, later)
  {
    var t := Taken(b, period, now);
    assert later - now >= (1.0 - t.tokens) * period;
    DivBack(later - now, 1.0 - t.tokens, period);
  }

  lemma DivBack(x: real, y: real, period: real)
    requires period > 0.0 && x >= y * period
    ensures x / period >= y
  {
    assert x / period * period == x;
    if x / period < y { LessTimes(x / period, y, period); }
  }

  lemma LessTimes(a: real, b: real, p: real)
    requires a < b && p > 0.0
    ensures a * p < b * p
  {}

  // --- what a bucket lets through ----------------------------------------------------------

  /** What has been sent once every attempt has been made, in order of time. */
  function GrantedAfter(b: Bucket, sent: seq<real>, attempts: seq<real>): seq<real>
    decreases |attempts|
  {
    if attempts == [] then sent
    else
      GrantedAfter(Taken(b, CLIENT_PERIOD, attempts[0]),
                   if Grants(b, CLIENT_PERIOD, attempts[0]) then sent + [attempts[0]] else sent, attempts[1..])
  }

  /** The times at which a token was granted, from a full bucket. */
  function Granted(start: real, attempts: seq<real>): seq<real> { GrantedAfter(Bucket(BURST, start), [], attempts) }

  predicate InOrder(times: seq<real>) { forall i, j :: 0 <= i < j < |times| ==> times[i] <= times[j] }

  /** No stretch of `sent` holds more than a burst and what the period refills. */
  predicate Paced(sent: seq<real>) {
    forall i, j :: 0 <= i <= j < |sent| ==> (j - i + 1) as real <= BURST + (sent[j] - sent[i]) / CLIENT_PERIOD
  }

  /** The tokens left account for every stretch ending now. */
  predicate Accounts(b: Bucket, sent: seq<real>) {
    && 0.0 <= b.tokens <= BURST
    && forall i :: 0 <= i < |sent| ==> b.tokens <= BURST + (b.last - sent[i]) / CLIENT_PERIOD - (|sent| - i) as real
  }

  lemma AttemptAccounts(b: Bucket, sent: seq<real>, now: real)
    requires Accounts(b, sent) && Paced(sent) && b.last <= now
    ensures
      var longer := if Grants(b, CLIENT_PERIOD, now) then sent + [now] else sent;
      Accounts(Taken(b, CLIENT_PERIOD, now), longer) && Paced(longer)
  {}

  /** Attempts at or after `start`, in order of time. */
  predicate Ordered(start: real, attempts: seq<real>)
    decreases |attempts|
  {
    attempts == [] || (start <= attempts[0] && Ordered(attempts[0], attempts[1..]))
  }

  predicate Keeps(b: Bucket, sent: seq<real>) { Accounts(b, sent) && Paced(sent) }

  lemma {:induction false} GrantsArePaced(b: Bucket, sent: seq<real>, attempts: seq<real>)
    requires Keeps(b, sent) && Ordered(b.last, attempts)
    ensures Paced(GrantedAfter(b, sent, attempts))
    decreases |attempts|
  {
    if attempts != [] {
      var now := attempts[0];
      var next := if Grants(b, CLIENT_PERIOD, now) then sent + [now] else sent;
      assert Keeps(Taken(b, CLIENT_PERIOD, now), next) by { AttemptAccounts(b, sent, now); }
      GrantsArePaced(Taken(b, CLIENT_PERIOD, now), next, attempts[1..]);
    }
  }

  // --- the server ----------------------------------------------------------------------------

  /** Requests arrive in the order sent, each delayed by between `delay` and `delay + spread`. */
  predicate Arrive(sent: seq<real>, arrived: seq<real>, delay: real, spread: real) {
    && |arrived| == |sent| && InOrder(arrived)
    && forall i :: 0 <= i < |sent| ==> delay <= arrived[i] - sent[i] <= delay + spread
  }

  /** The server's bucket after `n` arrivals; full at the first. */
  function ServerBucket(arrived: seq<real>, n: nat): Bucket
    requires 0 < n <= |arrived|
  {
    if n == 1 then Taken(Bucket(BURST, arrived[0]), SERVER_PERIOD, arrived[0])
    else Taken(ServerBucket(arrived, n - 1), SERVER_PERIOD, arrived[n - 1])
  }

  predicate ServerGrants(arrived: seq<real>, k: nat)
    requires k < |arrived|
  {
    k == 0 || Grants(ServerBucket(arrived, k), SERVER_PERIOD, arrived[k])
  }

  /** The server's tokens are those left since the arrival `i` that last found it full. */
  predicate FullAt(arrived: seq<real>, n: nat, i: nat)
    requires 0 < n <= |arrived| && i < n
  {
    ServerBucket(arrived, n).tokens == BURST + (arrived[n - 1] - arrived[i]) / SERVER_PERIOD - (n - i) as real
  }

  lemma NoStretchIsTooLong(sent: seq<real>, arrived: seq<real>, delay: real, spread: real, i: nat, j: nat)
    requires Paced(sent) && Arrive(sent, arrived, delay, spread) && spread <= JITTER && i <= j < |sent|
    ensures (j - i + 1) as real <= BURST + (arrived[j] - arrived[i]) / SERVER_PERIOD
  {
    assert (j - i + 1) as real <= BURST + (sent[j] - sent[i]) / CLIENT_PERIOD;
    assert arrived[j] - arrived[i] >= sent[j] - sent[i] - JITTER;
    if j - i + 1 >= 5 {
      assert (j - i + 1) as real >= 5.0;
    }
  }

  lemma NextArrival(sent: seq<real>, arrived: seq<real>, delay: real, spread: real, n: nat, i: nat) returns (next: nat)
    requires Paced(sent) && Arrive(sent, arrived, delay, spread) && spread <= JITTER && 0 < n < |sent|
    requires i < n && FullAt(arrived, n, i)
    ensures ServerGrants(arrived, n) && next < n + 1 && FullAt(arrived, n + 1, next)
  {
    var b := ServerBucket(arrived, n);
    NoStretchIsTooLong(sent, arrived, delay, spread, i, n);
    assert (n + 1 - i) as real == (n - i) as real + 1.0;
    assert b.last == arrived[n - 1];
    next := if b.tokens + (arrived[n] - b.last) / SERVER_PERIOD >= BURST then n else i;
  }

  lemma {:induction false} ServerKeepsUp(sent: seq<real>, arrived: seq<real>, delay: real, spread: real, n: nat) returns (i: nat)
    requires Paced(sent) && Arrive(sent, arrived, delay, spread) && spread <= JITTER && 0 < n <= |sent|
    ensures i < n && FullAt(arrived, n, i) && ServerGrants(arrived, n - 1)
    decreases n
  {
    if n == 1 {
      i := 0;
    } else {
      i := ServerKeepsUp(sent, arrived, delay, spread, n - 1);
      i := NextArrival(sent, arrived, delay, spread, n - 1, i);
    }
  }

  /** Every sequence of requests the client's bucket grants is granted by the server's, if
      the one-way delay varies by no more than half a second. */
  lemma ServerNeverThrottles(start: real, attempts: seq<real>, arrived: seq<real>, delay: real, spread: real, k: nat)
    requires Ordered(start, attempts)
    requires Arrive(Granted(start, attempts), arrived, delay, spread) && spread <= JITTER && k < |arrived|
    ensures ServerGrants(arrived, k)
  {
    GrantsArePaced(Bucket(BURST, start), [], attempts);
    var i := ServerKeepsUp(Granted(start, attempts), arrived, delay, spread, k + 1);
  }

  const FIVE: seq<real> := [0.0, 0.0, 0.0, 0.0, 2.0]

  /** Half a second is the most: any wider spread lets some granted sequence be throttled. */
  lemma AnyMoreWouldThrottle(spread: real)
    requires JITTER < spread
    ensures
      var late := Least(spread, 2.0);
      var arrived := [late, late, late, late, 2.0];
      Ordered(0.0, FIVE) && Granted(0.0, FIVE) == FIVE && Arrive(FIVE, arrived, 0.0, spread) && !ServerGrants(arrived, 4)
  {
    var late := Least(spread, 2.0);
    var arrived := [late, late, late, late, 2.0];
    FiveOrdered();
    assert ServerBucket(arrived, 1) == Bucket(3.0, late);
    assert ServerBucket(arrived, 2) == Bucket(2.0, late);
    assert ServerBucket(arrived, 3) == Bucket(1.0, late);
    assert ServerBucket(arrived, 4) == Bucket(0.0, late);
    GrantedFive();
  }

  lemma FiveOrdered()
    ensures Ordered(0.0, FIVE)
  {
    assert FIVE[1..][1..] == FIVE[2..] && FIVE[2..][1..] == FIVE[3..] && FIVE[3..][1..] == FIVE[4..] && FIVE[4..][1..] == [];
    assert Ordered(0.0, FIVE[3..]);
    assert Ordered(0.0, FIVE[2..]);
    assert Ordered(0.0, FIVE[1..]);
  }

  lemma GrantedFive()
    ensures Granted(0.0, FIVE) == FIVE
  {
    var none: seq<real> := [];
    assert FIVE[4..] == [2.0] && FIVE[4..][1..] == none;
    assert FIVE[3..][1..] == FIVE[4..] && FIVE[2..][1..] == FIVE[3..] && FIVE[1..][1..] == FIVE[2..];
    assert GrantedAfter(Bucket(0.0, 0.0), FIVE[..4], FIVE[4..]) == FIVE;
    assert GrantedAfter(Bucket(1.0, 0.0), FIVE[..3], FIVE[3..]) == FIVE by { assert FIVE[..3] + [0.0] == FIVE[..4]; }
    assert GrantedAfter(Bucket(2.0, 0.0), FIVE[..2], FIVE[2..]) == FIVE by { assert FIVE[..2] + [0.0] == FIVE[..3]; }
    assert GrantedAfter(Bucket(3.0, 0.0), FIVE[..1], FIVE[1..]) == FIVE by { assert FIVE[..1] + [0.0] == FIVE[..2]; }
    assert none + [0.0] == FIVE[..1];
  }
}
