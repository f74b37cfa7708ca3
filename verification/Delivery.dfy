/** The server-to-client output protocol: one shared screen and frame builder, a
    history ring, and any number of sockets, each written under its own lock. */
module Delivery {
  import opened Prelude
  import opened WireTypes
  import opened FlushBuilder
  import opened ClientView
  import opened Scrollback

  /** One payload written to a socket, with the instant its contents were read. */
  datatype Written = Written(payload: Payload, stamp: nat)

  /** A resume snapshot taken but not yet written; while it exists the socket's
      write lock is held. */
  datatype Batch = Batch(picture: Picture, first: nat, replay: seq<Row>, stamp: nat)
  {
    function Payloads(): seq<Payload> { BatchPayloads(picture, first, replay) }
  }

  /** One attached socket. `ready` is set by the builder reset that follows
      registration; `gen` counts resume snapshots; `log` is everything written.
      `shown`, `lo`, `stolen` and `skipped` are bookkeeping of the specification: the
      picture last sent whole or completed, the first history line the socket is owed,
      the lines a resume on another socket moved into history unseen, and those the
      socket's own resumes moved there and did not replay. */
  datatype Conn = Conn(
    ready: bool, gen: nat, batch: Option<Batch>, log: seq<Written>,
    shown: Option<Picture>, lo: nat, stolen: set<nat>, skipped: set<nat>)
  {
    predicate Missed(i: nat) { Among(stolen, skipped, i) }
  }

  predicate Among(a: set<nat>, b: set<nat>, i: nat) { i in a || i in b }

  /** A built frame on its way: the generation each socket had when it was built,
      the sockets still to be written, and the picture it completes (absent when
      only a clipboard payload rides it). */
  datatype Flight = Flight(
    frame: Frame, picture: Option<Picture>, gens: map<nat, nat>, ready: set<nat>,
    waiting: set<nat>, stamp: nat)

  datatype Sys = Sys(
    screen: Screen, sized: bool, cache: Cache, ring: Ring<Row>, conns: map<nat, Conn>,
    flight: Option<Flight>, palettePending: bool, clearedPending: bool,
    clipboard: Option<seq<nat>>, clock: nat)

  datatype Step =
    | Output(screen: Screen, erased: bool, recolored: bool, clip: Option<seq<nat>>)
    | Resize(screen: Screen)
    | Add(c: nat)
    | AttachReset(c: nat)
    | Detach(c: nat)
    | BuildFrame(held: bool, coalesce: bool)
    | Dispatch(c: nat)
    | ResumeSnapshot(c: nat, haveThrough: int, replayMax: Option<nat>)
    | BatchWrite(c: nat)

  // --- helpers ---------------------------------------------------------------------

  function PayloadsOf(log: seq<Written>): seq<Payload> {
    if log == [] then [] else [log[0].payload] + PayloadsOf(log[1..])
  }

  /** The client at the other end of the socket. */
  function ClientOf(k: Conn): Client { ApplyAll(FRESH, PayloadsOf(k.log)) }

  function Stamped(ps: seq<Payload>, stamp: nat): (r: seq<Written>)
    ensures |r| == |ps|
    ensures forall i :: 0 <= i < |r| ==> r[i] == Written(ps[i], stamp)
  {
    seq(|ps|, i requires 0 <= i < |ps| => Written(ps[i], stamp))
  }

  function Interval(a: nat, b: nat): (r: set<nat>)
    ensures forall i: nat :: i in r <==> a <= i < b
    decreases b
  {
    if b <= a then {} else Interval(a, b - 1) + {b - 1}
  }

  const MAX_REPLAY_LINES := 2000

  /** Where a resume replay begins: after what the client holds, and at most
      `MAX_REPLAY_LINES` (or the client's smaller bound) below the tail. */
  function ReplayStart(committed: nat, haveThrough: int, replayMax: Option<nat>): (from: nat)
    ensures haveThrough < from
    ensures committed - from <= MAX_REPLAY_LINES
  {
    var from: nat := if haveThrough >= 0 then haveThrough + 1 else 0;
    var bound := if replayMax.Some? then Min(MAX_REPLAY_LINES, replayMax.value) else MAX_REPLAY_LINES;
    if committed > bound then Max(from, committed - bound) else from
  }

  // --- the steps --------------------------------------------------------------------

  ghost predicate Enabled(s: Sys, st: Step) {
    match st
    case Output(screen, _, _, _) => screen.Valid() && |screen.rows| == |s.screen.rows|
    case Resize(screen) => screen.Valid()
    case Add(c) => c !in s.conns
    case AttachReset(c) => c in s.conns && !s.conns[c].ready
    case Detach(c) => c in s.conns
    case BuildFrame(_, _) => s.flight.None? || s.flight.value.waiting == {}
    case Dispatch(c) =>
      s.flight.Some? && c in s.flight.value.waiting && c in s.conns && c in s.flight.value.gens
      && s.conns[c].batch.None?
    case ResumeSnapshot(c, _, replayMax) =>
      c in s.conns && s.conns[c].ready && s.conns[c].batch.None?
      && (replayMax.Some? ==> 1 <= replayMax.value)
    case BatchWrite(c) => c in s.conns && s.conns[c].batch.Some?
  }

  function Next(s: Sys, st: Step): Sys
    requires Enabled(s, st)
    requires s.ring.cleared <= |s.ring.history|
  {
    match st
    case Output(screen, erased, recolored, clip) =>
      s.(screen := screen,
         ring := if erased then s.ring.Clear() else s.ring,
         clearedPending := s.clearedPending || erased,
         palettePending := s.palettePending || recolored,
         clipboard := if clip.Some? then clip else s.clipboard)
    case Resize(screen) => s.(screen := screen, sized := true, cache := s.cache.Reset())
    case Add(c) =>
      s.(conns := s.conns[c := Conn(false, 0, None, [], None, s.ring.Committed(), {}, {})])
    case AttachReset(c) =>
      s.(conns := s.conns[c := s.conns[c].(ready := true)], cache := s.cache.Reset())
    case Detach(c) =>
      s.(conns := s.conns - {c},
         flight := if s.flight.None? then None
                   else Some(s.flight.value.(waiting := s.flight.value.waiting - {c})))
    case BuildFrame(held, coalesce) => if s.conns == map[] then Suspend(s) else Flush(s, held, coalesce)
    case Dispatch(c) => Deliver(s, c)
    case ResumeSnapshot(c, haveThrough, replayMax) => Snapshot(s, c, haveThrough, replayMax)
    case BatchWrite(c) => WriteBatch(s, c)
  }

  /** Nobody attached: keep history, build nothing. */
  function Suspend(s: Sys): Sys {
    if !s.sized then s.(flight := None)
    else s.(ring := s.ring.Append(Committable(s.cache, s.screen)),
            screen := s.screen.(drained := []), flight := None)
  }

  /** A pass under a hold does not build at all, and leaves the drain where it is. */
  function Pass(c: Cache, s: Screen, sized: bool, held: bool, committed: nat): Built {
    if held then Built(c, s, None) else Build(c, s, sized, false, committed)
  }

  /** The cache a build diffs against once the pending repaints are folded in. */
  function BuildCache(s: Sys, held: bool, coalesce: bool): Cache {
    if s.palettePending || (!held && coalesce) then s.cache.Reset() else s.cache
  }

  /** The frame after the one-shot signals ride it. */
  function Decorate(f: Option<Frame>, cleared: bool, clip: Option<seq<nat>>): Option<Frame> {
    var f1 :=
      if f.Some? && cleared
      then Some(f.value.(cleared := true,
                         changed := AppendRowIfMissing(f.value.changed, f.value.curRow, |f.value.rows|)))
      else f;
    if clip.None? then f1
    else if f1.None? then Some(EMPTY_FRAME.(clipboard := clip))
    else Some(f1.value.(clipboard := clip))
  }

  function Flush(s: Sys, held: bool, coalesce: bool): Sys {
    Sent(s, Pass(BuildCache(s, held, coalesce), s.screen, s.sized, held, s.ring.Committed()))
  }

  /** The system once the outcome of a build has been committed and launched. */
  function Sent(s: Sys, b: Built): Sys {
    var frame := Decorate(b.frame, s.clearedPending, s.clipboard);
    s.(cache := b.cache,
       screen := b.screen,
       ring := if b.frame.Some? then s.ring.Append(b.frame.value.scroll) else s.ring,
       palettePending := false,
       clearedPending := s.clearedPending && b.frame.None?,
       clipboard := None,
       clock := s.clock + 1,
       flight := Launch(frame, if b.frame.None? then None else Some(PictureOf(s.screen, b.frame.value.base)),
                        s.conns, s.clock + 1))
  }

  /** A frame set on its way to every socket attached when it was built. */
  function Launch(frame: Option<Frame>, picture: Option<Picture>, conns: map<nat, Conn>, stamp: nat): Option<Flight> {
    if frame.None? then None
    else Some(Flight(frame.value, picture,
                     (map c | c in conns :: conns[c].gen),
                     (set c | c in conns && conns[c].ready),
                     conns.Keys, stamp))
  }

  /** Whether a socket's resume generation still matches the frame's. */
  predicate Current(s: Sys, c: nat)
    requires s.flight.Some? && c in s.conns && c in s.flight.value.gens
  {
    s.flight.value.gens[c] == s.conns[c].gen
  }

  /** What one socket is written: the whole frame, or its durable part when a
      resume snapshot has superseded the rest. */
  function Outgoing(s: Sys, c: nat): seq<Payload>
    requires s.flight.Some? && c in s.conns && c in s.flight.value.gens
  {
    if Current(s, c) then FramePayloads(s.flight.value.frame) else DurablePayloads(s.flight.value.frame)
  }

  function Deliver(s: Sys, c: nat): Sys
    requires s.flight.Some? && c in s.conns && c in s.flight.value.gens
  {
    var fl := s.flight.value;
    var k := s.conns[c];
    var k1 := k.(log := k.log + Stamped(Outgoing(s, c), fl.stamp),
                 shown := if Current(s, c) && c in fl.ready && fl.picture.Some? then fl.picture else k.shown);
    s.(conns := s.conns[c := k1], flight := Some(fl.(waiting := fl.waiting - {c})))
  }

  function Below(lines: set<nat>, n: nat): set<nat> { set i | i in lines && i < n }

  /** A line range another socket's resume committed without any frame. */
  function Steal(k: Conn, a: nat, b: nat): Conn { k.(stolen := k.stolen + Interval(a, b)) }

  function Snapshot(s: Sys, c: nat, haveThrough: int, replayMax: Option<nat>): Sys
    requires c in s.conns
    requires s.ring.cleared <= |s.ring.history|
  {
    var before := s.ring.Committed();
    var ring := s.ring.Append(Committable(s.cache, s.screen));
    var committed := ring.Committed();
    var first := FirstServed(ring, ReplayStart(committed, haveThrough, replayMax));
    s.(ring := ring, screen := s.screen.(drained := []), cache := s.cache.Reset(), clock := s.clock + 1,
       conns := Resumed(s.conns, c, before, committed,
                        Batch(PictureOf(s.screen, committed), first, ring.history[first..], s.clock + 1)))
  }

  /** The sockets after `c` took the snapshot `b`, which moved history from
      `before` to `committed`. */
  function Resumed(conns: map<nat, Conn>, c: nat, before: nat, committed: nat, b: Batch): map<nat, Conn>
    requires c in conns
  {
    var k := conns[c];
    var k1 := k.(gen := k.gen + 1, batch := Some(b),
                 lo := Min(k.lo, b.first),
                 stolen := Below(k.stolen, b.first),
                 skipped := Below(k.skipped, b.first) + Interval(before, b.first));
    map d | d in conns :: if d == c then k1 else Steal(conns[d], before, committed)
  }

  function WriteBatch(s: Sys, c: nat): Sys
    requires c in s.conns && s.conns[c].batch.Some?
  {
    var k := s.conns[c];
    var b := k.batch.value;
    s.(conns := s.conns[c := k.(log := k.log + Stamped(b.Payloads(), b.stamp), batch := None, shown := Some(b.picture))])
  }

  // --- runs -------------------------------------------------------------------------

  ghost predicate Initial(s: Sys) {
    && s.screen.Valid() && s.ring.Valid() && s.ring.history == []
    && Blank(s.cache) && !s.cache.prevAltValid
    && s.conns == map[] && s.flight.None?
  }

  /** `steps` can be taken one after another from `s`. */
  ghost predicate Runs(s: Sys, steps: seq<Step>)
    decreases |steps|
  {
    s.ring.Valid() &&
    (steps == [] || (Enabled(s, steps[0]) && Runs(Next(s, steps[0]), steps[1..])))
  }

  ghost function After(s: Sys, steps: seq<Step>): Sys
    requires Runs(s, steps)
    decreases |steps|
  {
    if steps == [] then s else After(Next(s, steps[0]), steps[1..])
  }

  /** Every step keeps the ring well formed, so `Runs` only asks for enabledness. */
  lemma RingStaysValid(s: Sys, st: Step)
    requires s.ring.Valid() && Enabled(s, st)
    ensures Next(s, st).ring.Valid()
    ensures s.ring.history <= Next(s, st).ring.history
  {
  }
}
