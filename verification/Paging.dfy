/** Fetching history by the page: what a resume replays, what a history request returns,
    and that between them nothing the ring retains is out of the client's reach. */
module Paging {
  import opened Prelude
  import opened Scrollback
  import opened Pacing
  import Delivery

  const HISTORY_PAGE_SIZE := 1000
  const PAGINATION_MIN_RING := Delivery.MAX_REPLAY_LINES + 1
  const MAX_SAFE_INTEGER := 0x1F_FFFF_FFFF_FFFF

  predicate PagingDeclared(capacity: nat) { capacity >= PAGINATION_MIN_RING }

  datatype Request = Request(fromAbs: int, maxLines: int)

  /** Line count first, then the start, in the form that cannot overflow. */
  predicate ValidRequest(q: Request) {
    1 <= q.maxLines <= HISTORY_PAGE_SIZE && 0 <= q.fromAbs <= MAX_SAFE_INTEGER - q.maxLines
  }

  datatype Reply<T> = Reply(first: nat, lines: seq<T>)

  /** The reply before the byte budget: the retained part of the window asked for, named
      by its own first index; an empty one carries the request's. */
  function Served<T>(r: Ring<T>, q: Request): Reply<T>
    requires r.cleared <= |r.history| && ValidRequest(q)
  {
    var first := Max(q.fromAbs, r.Oldest());
    var limit := Min(q.fromAbs + q.maxLines, r.Committed());
    if first < limit then Reply(first, r.history[first..limit]) else Reply(q.fromAbs, [])
  }

  /** None when the control is ignored: before the socket's first resume, where paging is
      not declared, on a malformed request, and when the socket's bucket is empty. Only a
      request that is none of the first three costs a token. */
  method HistoryControl<T>(ring: ScrollbackRing<T>, resumed: bool, bucket: TokenBucket, q: Request, now: real)
    returns (reply: Option<Reply<T>>)
    requires ring.Valid() && bucket.period == SERVER_PERIOD
    modifies bucket
    ensures
      var asked := resumed && PagingDeclared(ring.capacity) && ValidRequest(q);
      var was := old(bucket.Model(now));
      && bucket.Model(now) == (if asked then Taken(was, SERVER_PERIOD, now) else was)
      && reply == if asked && Grants(was, SERVER_PERIOD, now) then Some(Served(ring.Model(), q)) else None
  {
    if !resumed { return None; }
    if ring.capacity < PAGINATION_MIN_RING { return None; }
    if q.maxLines < 1 || q.maxLines > HISTORY_PAGE_SIZE { return None; }
    if q.fromAbs < 0 || q.fromAbs > MAX_SAFE_INTEGER - q.maxLines { return None; }
    var wait := bucket.Take(now);
    if wait != 0.0 { return None; }
    var oldest := ring.committed - ring.count;
    var end := q.fromAbs + q.maxLines;
    var start := Max(q.fromAbs, oldest);
    var limit := Min(end, ring.committed);
    var first: nat, lines: seq<T> := q.fromAbs, [];
    if start < limit {
      var at;
      at, lines := ring.LinesRange(start, limit - start);
      first := start;
    }
    reply := Some(Reply(first, lines));
  }

  // --- what a reply tells the client ---------------------------------------------------------

  predicate Retained<T>(r: Ring<T>, i: nat)
    requires r.cleared <= |r.history|
  {
    r.Oldest() <= i < r.Committed()
  }

  /** The lines served are exactly those of the window that are retained, each the committed
      one; they end at the window's end or at the tail. */
  lemma ServedExactly<T>(r: Ring<T>, q: Request, i: nat)
    requires r.cleared <= |r.history| && ValidRequest(q)
    ensures
      var a := Served(r, q);
      && (a.first <= i < a.first + |a.lines| <==> q.fromAbs <= i < q.fromAbs + q.maxLines && Retained(r, i))
      && (a.first <= i < a.first + |a.lines| ==> a.lines[i - a.first] == r.history[i])
      && (a.lines != [] ==> a.first + |a.lines| == q.fromAbs + q.maxLines || a.first + |a.lines| == r.Committed())
  {}

  /** A reply of `n` lines, whatever non-empty prefix the byte budget leaves: it lies in the
      window asked for, every line in it is the committed one, and it starts above the
      window's start only if what lies between is no longer retained. */
  lemma ReplyIsHonest<T>(r: Ring<T>, q: Request, n: nat)
    requires r.cleared <= |r.history| && ValidRequest(q) && 1 <= n <= |Served(r, q).lines|
    ensures
      var a := Served(r, q);
      && q.fromAbs <= a.first && a.first + n <= q.fromAbs + q.maxLines && a.first + n <= r.Committed()
      && a.lines[..n] == r.history[a.first..a.first + n]
      && forall i: nat :: q.fromAbs <= i < a.first ==> !Retained(r, i)
  {}

  /** An empty reply names the request's own start, and nothing in the window is retained. */
  lemma EmptyReplyIsHonest<T>(r: Ring<T>, q: Request)
    requires r.cleared <= |r.history| && ValidRequest(q) && Served(r, q).lines == []
    ensures Served(r, q).first == q.fromAbs
    ensures forall i: nat :: q.fromAbs <= i < q.fromAbs + q.maxLines ==> !Retained(r, i)
  {}

  /** The index a contained reply lets the client raise its floor to, if it shows that
      history is gone: the end of the window if nothing came, the served start if that is
      above the window's. */
  function RaiseFloorTo<T>(q: Request, a: Reply<T>): Option<nat>
    requires ValidRequest(q)
  {
    if a.lines == [] then Some(q.fromAbs + q.maxLines)
    else if a.first > q.fromAbs then Some(a.first)
    else None
  }

  /** No line under a floor the reply raises is or will be served. */
  predicate RaiseIsSound<T>(r: Ring<T>, q: Request)
    requires r.cleared <= |r.history| && ValidRequest(q)
  {
    var to_ := RaiseFloorTo(q, Served(r, q));
    to_.Some? ==> to_.value <= r.Oldest()
  }

  /** Asking is safe exactly when the window stays below the tail, or some of it is still
      retained: an empty reply to a window past the tail condemns lines not yet committed. */
  lemma FloorRaiseExactly<T>(r: Ring<T>, q: Request)
    requires r.cleared <= |r.history| && ValidRequest(q)
    ensures RaiseIsSound(r, q) <==>
            (q.fromAbs + q.maxLines <= r.Committed() || Max(q.fromAbs, r.Oldest()) < r.Committed())
  {
    if Served(r, q).lines == [] && q.fromAbs + q.maxLines <= r.Committed() {
      EmptyReplyIsHonest(r, q);
      var last: nat := q.fromAbs + q.maxLines - 1;
      assert !Retained(r, last);
    }
  }

  /** Asked for one line while there is none, a ring answers with an empty page; the floor
      goes to 1, and the first line committed after that lies under it, retained. */
  lemma FloorPassesTheTail(line: int)
    ensures
      var r: Ring<int> := Ring(PAGINATION_MIN_RING, [], 0);
      var q := Request(0, 1);
      && RaiseFloorTo(q, Served(r, q)) == Some(1) && !RaiseIsSound(r, q)
      && Retained(r.Append([line]), 0) && Fetchable(r.Append([line]), 0)
  {
    var r: Ring<int> := Ring(PAGINATION_MIN_RING, [], 0);
    FloorRaiseExactly(r, Request(0, 1));
    RetainedIsFetchable(r.Append([line]), 0);
  }

  // --- reachability ---------------------------------------------------------------------------

  /** A resume replays this line. */
  predicate Replayed(committed: nat, haveThrough: int, replayMax: Option<nat>, i: nat) {
    Delivery.ReplayStart(committed, haveThrough, replayMax) <= i < committed
  }

  /** A resume replays what the client lacks, of the last lines, as many as the server's
      bound and the client's own allow. */
  lemma ReplayedExactly(committed: nat, haveThrough: int, replayMax: Option<nat>, i: nat)
    requires haveThrough >= -1
    ensures Replayed(committed, haveThrough, replayMax, i) <==>
            && haveThrough < i < committed && committed - i <= 2000
            && (replayMax.Some? ==> committed - i <= replayMax.value)
  {}

  /** Some valid request returns this line in whatever part of the reply the budget keeps. */
  ghost predicate Fetchable<T>(r: Ring<T>, i: nat)
    requires r.cleared <= |r.history|
  {
    PagingDeclared(r.capacity) && exists q: Request :: ValidRequest(q) && Returns(r, q, i)
  }

  predicate Returns<T>(r: Ring<T>, q: Request, i: nat)
    requires r.cleared <= |r.history| && ValidRequest(q)
  {
    Served(r, q).lines != [] && Served(r, q).first == i
  }

  /** A retained line below the largest safe integer can be asked for, wherever paging is
      declared. */
  lemma RetainedIsFetchable<T>(r: Ring<T>, i: nat)
    requires r.cleared <= |r.history| && Retained(r, i) && i < MAX_SAFE_INTEGER
    ensures Fetchable(r, i) <==> PagingDeclared(r.capacity)
  {
    var q := Request(i, 1);
    assert ValidRequest(q) && Returns(r, q, i);
  }

  /** With no bound of the client's own, every retained line the client lacks is either
      replayed or can be fetched: a ring deep enough for the replay to cut short is always
      deep enough to declare paging. */
  lemma NothingRetainedIsUnreachable<T>(r: Ring<T>, haveThrough: int, i: nat)
    requires r.cleared <= |r.history| && Retained(r, i) && i < MAX_SAFE_INTEGER
    requires haveThrough < i
    ensures Replayed(r.Committed(), haveThrough, None, i) || Fetchable(r, i)
  {
    if !Replayed(r.Committed(), haveThrough, None, i) {
      assert r.Committed() - r.Oldest() > Delivery.MAX_REPLAY_LINES;
      RetainedIsFetchable(r, i);
    }
  }

  /** With a bound of its own, a client can put retained lines out of its reach, exactly
      when paging is not declared and more lines than the bound are retained that it
      lacks. */
  lemma UnreachableExactly<T>(r: Ring<T>, haveThrough: int, bound: nat)
    requires r.cleared <= |r.history| && r.Committed() <= MAX_SAFE_INTEGER && haveThrough >= -1
    ensures
      (exists i: nat :: Max(r.Oldest(), haveThrough + 1) <= i < r.Committed()
                        && !Replayed(r.Committed(), haveThrough, Some(bound), i) && !Fetchable(r, i))
      <==>
      (!PagingDeclared(r.capacity)
       && r.Committed() - Max(r.Oldest(), haveThrough + 1) > Min(bound, Delivery.MAX_REPLAY_LINES))
  {
    var first: nat := Max(r.Oldest(), haveThrough + 1);
    var kept := Min(bound, Delivery.MAX_REPLAY_LINES);
    if !PagingDeclared(r.capacity) && r.Committed() - first > kept {
      assert !Replayed(r.Committed(), haveThrough, Some(bound), first) && !Fetchable(r, first);
    }
    if i: nat :| Max(r.Oldest(), haveThrough + 1) <= i < r.Committed()
                 && !Replayed(r.Committed(), haveThrough, Some(bound), i) && !Fetchable(r, i) {
      RetainedIsFetchable(r, i);
    }
  }

  /** A ring of three lines, a client that holds none and asks for one: the first line is
      retained and beyond its reach. */
  lemma ShallowRingHidesLines(a: int, b: int, c: int)
    ensures
      var r := Ring(3, [a, b, c], 0);
      Retained(r, 0) && !Replayed(r.Committed(), -1, Some(1), 0) && !Fetchable(r, 0)
  {}
}
