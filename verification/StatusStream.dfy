/** The status stream: a sweep in three phases that emits what changed, interleaved with
    sessions being created, closed, reordered and renamed. */
module StatusStream {
  import opened Prelude
  import opened Sessions

  type Id = nat

  datatype Status = Idle | Working | Failed | Warning | NeedsInput | Done | Exited | Crashed

  /** What a handler reports; `progress` is -1 until a program reports any. */
  datatype Inputs = Inputs(exited: bool, crashed: bool, progress: int, progressValue: int, notifSeq: nat, notif: string, osc: string)

  datatype Fields = Fields(
    status: Status, title: string, clientTitle: string, pinnedTitle: string, reports: bool, progressValue: int, order: nat)

  /** What a session stores itself. */
  datatype Titles = Titles(client: string, pinned: string, auto: string)

  /** What was last emitted, the latched notification status, and two cursors: the last
      notification classified and the last delivered. */
  datatype Tracker = Tracker(last: Option<Fields>, latched: Option<Status>, seen: nat, delivered: nat)

  const NEW_TRACKER := Tracker(None, None, 0, 0)

  type Classifier = string -> Option<Status>

  datatype Event = Update(fields: Fields, notif: Option<nat>) | Removed

  // --- one session's sweep ------------------------------------------------------------------

  function ProgressStatus(progress: int): Option<Status> {
    if progress == 1 || progress == 3 then Some(Working)
    else if progress == 2 then Some(Failed)
    else if progress == 4 then Some(Warning)
    else None
  }

  /** Only a paused operation is no rival claim to a latched status. */
  predicate Supersedes(progress: int) { progress != 4 }

  /** The status a fresh notification is classified as. */
  function Fresh(classify: Option<Classifier>, i: Inputs, seen: nat): Option<Status> {
    if classify.Some? && i.notifSeq > seen then classify.value(i.notif) else None
  }

  /** The status reported and the latch left behind. */
  function ComputeStatus(classify: Option<Classifier>, i: Inputs, t: Tracker): (Status, Option<Status>) {
    var news := Fresh(classify, i, t.seen);
    var latched := if news.Some? then news else t.latched;
    var p := ProgressStatus(i.progress);
    if i.exited then (if i.crashed then Crashed else Exited, t.latched)
    else if p.Some? && news.None? && (latched.None? || Supersedes(i.progress)) then (p.value, None)
    else if latched.Some? then (latched.value, latched)
    else (Idle, None)
  }

  function SeenAfter(classify: Option<Classifier>, i: Inputs, seen: nat): nat {
    if !i.exited && classify.Some? && i.notifSeq > seen then i.notifSeq else seen
  }

  /** The first title that is not empty: pinned, the program's, the client's, automatic. */
  function Effective(t: Titles, osc: string): string {
    if t.pinned != "" then t.pinned else if osc != "" then osc else if t.client != "" then t.client else t.auto
  }

  /** What a session's fields are now. */
  function Current(classify: Option<Classifier>, i: Inputs, t: Tracker, titles: Titles, order: nat): Fields {
    var (status, latched) := ComputeStatus(classify, i, t);
    Fields(status, Effective(titles, i.osc), titles.client, titles.pinned, i.progress >= 0 || latched.Some?, i.progressValue, order)
  }

  datatype Swept = Swept(tracker: Tracker, event: Option<Event>)

  function Sweep(classify: Option<Classifier>, i: Inputs, t: Tracker, titles: Titles, order: nat): Swept {
    var (_, latched) := ComputeStatus(classify, i, t);
    var f := Current(classify, i, t, titles, order);
    var news := i.notifSeq > t.delivered;
    var t1 := t.(latched := latched, seen := SeenAfter(classify, i, t.seen));
    if t.last == Some(f) && !news then Swept(t1, None)
    else Swept(t1.(last := Some(f), delivered := if news then i.notifSeq else t.delivered),
               Some(Update(f, if news then Some(i.notifSeq) else None)))
  }

  class StatusTracker {
    var last: Option<Fields>
    var latched: Option<Status>
    var notifSeen: nat
    var notifDelivered: nat

    constructor ()
      ensures Model() == NEW_TRACKER
    {
      last, latched, notifSeen, notifDelivered := None, None, 0, 0;
    }

    ghost function Model(): Tracker
      reads this
    {
      Tracker(last, latched, notifSeen, notifDelivered)
    }

    /** Whether this call latched a state. */
    method ApplyNotification(classify: Option<Classifier>, i: Inputs) returns (now: bool)
      modifies this`notifSeen, this`latched
      ensures now == Fresh(classify, i, old(notifSeen)).Some?
      ensures latched == if now then Fresh(classify, i, old(notifSeen)) else old(latched)
      ensures notifSeen == if classify.Some? && i.notifSeq > old(notifSeen) then i.notifSeq else old(notifSeen)
    {
      if classify.None? || i.notifSeq <= notifSeen { return false; }
      notifSeen := i.notifSeq;
      var c := classify.value(i.notif);
      if c.Some? {
        latched := c;
        return true;
      }
      return false;
    }

    method ComputeStatusNow(classify: Option<Classifier>, i: Inputs) returns (status: Status)
      modifies this`notifSeen, this`latched
      ensures (status, latched) == ComputeStatus(classify, i, old(Model()))
      ensures notifSeen == SeenAfter(classify, i, old(notifSeen))
    {
      if i.exited { return if i.crashed then Crashed else Exited; }
      var now := ApplyNotification(classify, i);
      var p := ProgressStatus(i.progress);
      if p.Some? && !now && (latched.None? || Supersedes(i.progress)) {
        latched := None;
        return p.value;
      }
      if latched.Some? { return latched.value; }
      return Idle;
    }

    method SweepSession(classify: Option<Classifier>, i: Inputs, titles: Titles, order: nat) returns (event: Option<Event>)
      modifies this
      ensures Swept(Model(), event) == Sweep(classify, i, old(Model()), titles, order)
    {
      var news := i.notifSeq > notifDelivered;
      var status := ComputeStatusNow(classify, i);
      var reports := i.progress >= 0 || latched.Some?;
      var f := Fields(status, Effective(titles, i.osc), titles.client, titles.pinned, reports, i.progressValue, order);
      if last == Some(f) && !news { return None; }
      last := Some(f);
      event := Some(Update(f, if news then Some(i.notifSeq) else None));
      if news { notifDelivered := i.notifSeq; }
    }
  }

  // --- the manager and its listeners ------------------------------------------------------------

  /** `sweep` holds what the sweep under way has read of each session it covers; `view` is
      what a listener has folded from every event; `log` the notifications it was told of. */
  datatype Sys = Sys(
    live: map<Id, Titles>, order: seq<Id>, trackers: map<Id, Tracker>, sweep: Option<map<Id, Inputs>>,
    view: map<Id, Fields>, log: map<Id, seq<nat>>)

  datatype Step =
    | Create(id: Id, titles: Titles)
    | Close(id: Id)
    | Reorder(ids: seq<Id>)
    | Retitle(id: Id, titles: Titles)
    | Begin(inputs: map<Id, Inputs>)
    | Finish(autos: map<Id, string>)

  const START := Sys(map[], [], map[], None, map[], map[])

  predicate Enabled(s: Sys, st: Step) {
    match st
    case Create(id, _) => id !in s.live && id !in s.trackers && id !in s.log
    case Close(id) => id in s.live
    case Reorder(ids) => Enumerates(ids, s.live.Keys)
    case Retitle(id, _) => id in s.live
    case Begin(inputs) => s.sweep.None? && inputs.Keys == s.live.Keys
    case Finish(_) => s.sweep.Some?
  }

  /** The sweep confirms automatic titles as it goes. */
  function Retitled(t: Titles, autos: map<Id, string>, id: Id): Titles {
    if id in autos then t.(auto := autos[id]) else t
  }

  /** The sessions a finishing sweep still covers. */
  function Covered(s: Sys): set<Id>
    requires s.sweep.Some?
  {
    set id | id in s.sweep.value && id in s.live && id in s.trackers
  }

  function SweptOf(classify: Option<Classifier>, s: Sys, autos: map<Id, string>, id: Id): Swept
    requires s.sweep.Some? && id in Covered(s)
  {
    Sweep(classify, s.sweep.value[id], s.trackers[id], Retitled(s.live[id], autos, id), Position(s.order, id))
  }

  /** The events of a finishing sweep, at most one to a session: what changed of those it
      covers, and the removal of every session that is gone. */
  function Events(classify: Option<Classifier>, s: Sys, autos: map<Id, string>): map<Id, Event>
    requires s.sweep.Some?
  {
    map id | id in s.trackers && (id !in s.live || (id in Covered(s) && SweptOf(classify, s, autos, id).event.Some?)) ::
      if id !in s.live then Removed else SweptOf(classify, s, autos, id).event.value
  }

  /** A listener applies events as they come. */
  function Fold(view: map<Id, Fields>, events: map<Id, Event>): map<Id, Fields> {
    map id | id in view.Keys + events.Keys && !(id in events && events[id].Removed?) ::
      if id in events then events[id].fields else view[id]
  }

  function LogOf(log: map<Id, seq<nat>>, id: Id): seq<nat> { if id in log then log[id] else [] }

  function Logged(log: map<Id, seq<nat>>, events: map<Id, Event>): map<Id, seq<nat>> {
    map id | id in log.Keys + events.Keys ::
      if id in events && events[id].Update? && events[id].notif.Some? then LogOf(log, id) + [events[id].notif.value]
      else LogOf(log, id)
  }

  function FinishSweep(classify: Option<Classifier>, s: Sys, autos: map<Id, string>): Sys
    requires s.sweep.Some?
  {
    var events := Events(classify, s, autos);
    Sys(map id | id in s.live :: if id in Covered(s) then Retitled(s.live[id], autos, id) else s.live[id],
        s.order,
        map id | id in s.trackers && id in s.live :: if id in Covered(s) then SweptOf(classify, s, autos, id).tracker else s.trackers[id],
        None, Fold(s.view, events), Logged(s.log, events))
  }

  function Next(classify: Option<Classifier>, s: Sys, st: Step): Sys
    requires Enabled(s, st)
  {
    match st
    case Create(id, titles) => s.(live := s.live[id := titles], order := s.order + [id])
    case Close(id) => s.(live := s.live - {id}, order := Without(s.order, id))
    case Reorder(ids) => s.(order := ids)
    case Retitle(id, titles) => s.(live := s.live[id := titles])
    case Begin(inputs) =>
      s.(sweep := Some(inputs),
         trackers := map id | id in s.trackers.Keys + s.live.Keys ::
                       if id in s.trackers then s.trackers[id] else NEW_TRACKER)
    case Finish(autos) => FinishSweep(classify, s, autos)
  }

  // --- the invariant ---------------------------------------------------------------------------

  /** A listener knows, of every session tracked, exactly what was last emitted for it. */
  predicate ViewIsLastEmitted(s: Sys) {
    && (forall id :: id in s.view ==> id in s.trackers && s.trackers[id].last == Some(s.view[id]))
    && (forall id :: id in s.trackers && s.trackers[id].last.Some? ==> id in s.view)
  }

  predicate Rising(log: seq<nat>) { forall i, j :: 0 <= i < j < |log| ==> log[i] < log[j] }

  predicate UpTo(log: seq<nat>, n: nat) { log == [] || log[|log| - 1] <= n }

  /** A session's notifications were delivered in strictly rising order, none later than its
      tracker's cursor; a live session with any has a tracker. */
  predicate LogOk(s: Sys, id: Id)
    requires id in s.log
  {
    && Rising(s.log[id]) && (id in s.live ==> id in s.trackers)
    && (id in s.trackers ==> UpTo(s.log[id], s.trackers[id].delivered))
  }

  predicate NotificationsRise(s: Sys) { forall id :: id in s.log ==> LogOk(s, id) }

  /** A session once closed never comes back under its own id. */
  predicate SweepIsTracked(s: Sys) { s.sweep.Some? ==> s.sweep.value.Keys <= s.trackers.Keys }

  predicate Inv(s: Sys) {
    Enumerates(s.order, s.live.Keys) && ViewIsLastEmitted(s) && NotificationsRise(s) && SweepIsTracked(s)
  }

  lemma FinishKeepsView(classify: Option<Classifier>, s: Sys, autos: map<Id, string>)
    requires s.sweep.Some? && ViewIsLastEmitted(s) && SweepIsTracked(s)
    ensures ViewIsLastEmitted(FinishSweep(classify, s, autos))
  {
    var t := FinishSweep(classify, s, autos);
    var events := Events(classify, s, autos);
    forall id | id in t.view ensures id in t.trackers && t.trackers[id].last == Some(t.view[id]) {}
    forall id | id in t.trackers && t.trackers[id].last.Some? ensures id in t.view {}
  }

  lemma LaterRises(log: seq<nat>, d: nat, n: nat)
    requires Rising(log) && UpTo(log, d) && n > d
    ensures Rising(log + [n]) && UpTo(log + [n], n)
  {
    var all := log + [n];
    forall i, j | 0 <= i < j < |all| ensures all[i] < all[j] {
      if j == |log| { assert log[i] <= log[|log| - 1]; }
    }
  }

  lemma FinishKeepsOneLog(classify: Option<Classifier>, s: Sys, autos: map<Id, string>, id: Id)
    requires s.sweep.Some? && NotificationsRise(s) && SweepIsTracked(s)
    requires id in FinishSweep(classify, s, autos).log
    ensures LogOk(FinishSweep(classify, s, autos), id)
  {
    var t := FinishSweep(classify, s, autos);
    var old_ := LogOf(s.log, id);
    assert Rising(old_) && (id in s.log ==> LogOk(s, id));
    if id in Covered(s) {
      var w := SweptOf(classify, s, autos, id);
      assert t.trackers[id] == w.tracker;
      if w.event.Some? && w.event.value.notif.Some? {
        LaterRises(old_, s.trackers[id].delivered, s.sweep.value[id].notifSeq);
        assert t.log[id] == old_ + [s.sweep.value[id].notifSeq];
      } else {
        assert t.log[id] == old_;
      }
    } else {
      assert t.log[id] == old_;
    }
  }

  lemma FinishKeepsLog(classify: Option<Classifier>, s: Sys, autos: map<Id, string>)
    requires s.sweep.Some? && NotificationsRise(s) && SweepIsTracked(s)
    ensures NotificationsRise(FinishSweep(classify, s, autos))
  {
    forall id | id in FinishSweep(classify, s, autos).log ensures LogOk(FinishSweep(classify, s, autos), id) {
      FinishKeepsOneLog(classify, s, autos, id);
    }
  }

  lemma StepKeepsInv(classify: Option<Classifier>, s: Sys, st: Step)
    requires Inv(s) && Enabled(s, st)
    ensures Inv(Next(classify, s, st))
  {
    match st
    case Create(id, titles) =>
      assert forall y :: y in s.order + [id] <==> y in s.order || y == id;
    case Close(id) => WithoutEnumerates(s.order, s.live.Keys, id);
    case Reorder(_) =>
    case Retitle(_, _) => assert s.live[st.id := st.titles].Keys == s.live.Keys;
    case Begin(_) => BeginKeepsLog(classify, s, st);
    case Finish(autos) =>
      FinishKeepsView(classify, s, autos);
      FinishKeepsLog(classify, s, autos);
      assert FinishSweep(classify, s, autos).live.Keys == s.live.Keys;
  }

  lemma BeginKeepsLog(classify: Option<Classifier>, s: Sys, st: Step)
    requires st.Begin? && NotificationsRise(s) && Enabled(s, st)
    ensures NotificationsRise(Next(classify, s, st))
  {
    var t := Next(classify, s, st);
    forall id | id in t.log ensures LogOk(t, id) {
      assert LogOk(s, id);
    }
  }

  predicate Runs(classify: Option<Classifier>, s: Sys, steps: seq<Step>)
    decreases |steps|
  {
    steps == [] || (Enabled(s, steps[0]) && Runs(classify, Next(classify, s, steps[0]), steps[1..]))
  }

  function After(classify: Option<Classifier>, s: Sys, steps: seq<Step>): Sys
    requires Runs(classify, s, steps)
    decreases |steps|
  {
    if steps == [] then s else After(classify, Next(classify, s, steps[0]), steps[1..])
  }

  lemma {:induction false} RunsKeepInv(classify: Option<Classifier>, s: Sys, steps: seq<Step>)
    requires Inv(s) && Runs(classify, s, steps)
    ensures Inv(After(classify, s, steps))
    decreases |steps|
  {
    if steps != [] {
      StepKeepsInv(classify, s, steps[0]);
      RunsKeepInv(classify, Next(classify, s, steps[0]), steps[1..]);
    }
  }

  // --- the theorems --------------------------------------------------------------------------------

  /** What a listener holds of a session is what the session is now. */
  predicate Agrees(s: Sys, id: Id, i: Inputs, status: Status, reports: bool)
    requires id in s.live && id in s.view
  {
    var f := s.view[id];
    && f.status == status && f.reports == reports && f.progressValue == i.progressValue
    && f.title == Effective(s.live[id], i.osc) && f.clientTitle == s.live[id].client && f.pinnedTitle == s.live[id].pinned
    && f.order < |s.order| && s.order[f.order] == id
  }

  lemma FinishAgrees(classify: Option<Classifier>, s: Sys, autos: map<Id, string>, id: Id)
    requires Inv(s) && s.sweep.Some? && id in s.live && id in s.sweep.value
    ensures
      var t := FinishSweep(classify, s, autos);
      var i := s.sweep.value[id];
      id in s.trackers && id in t.view && id in t.live &&
      var (status, latched) := ComputeStatus(classify, i, s.trackers[id]);
      Agrees(t, id, i, status, i.progress >= 0 || latched.Some?)
  {
    var t := FinishSweep(classify, s, autos);
    FinishKeepsView(classify, s, autos);
    assert id in Covered(s);
    var w := SweptOf(classify, s, autos, id);
    assert t.trackers[id] == w.tracker;
    assert w.tracker.last == Some(Current(classify, s.sweep.value[id], s.trackers[id], t.live[id], Position(s.order, id)));
    assert id in t.view && t.view[id] == w.tracker.last.value;
    assert id in s.order;
  }

  /** Once a sweep has finished, folding every event ever emitted gives the present titles,
      place in the order, progress and status of every live session it covered, and nothing
      of any session that is gone, whatever was closed, renamed or reordered while the
      sweep was under way. */
  lemma StreamAgreesAfterSweep(classify: Option<Classifier>, steps: seq<Step>, autos: map<Id, string>, id: Id)
    requires Runs(classify, START, steps) && After(classify, START, steps).sweep.Some?
    ensures
      var s := After(classify, START, steps);
      var t := FinishSweep(classify, s, autos);
      && (id !in s.live ==> id !in t.view)
      && (id in s.live && id in s.sweep.value ==>
            var i := s.sweep.value[id];
            id in s.trackers && id in t.view && id in t.live &&
            var (status, latched) := ComputeStatus(classify, i, s.trackers[id]);
            Agrees(t, id, i, status, i.progress >= 0 || latched.Some?))
  {
    var s := After(classify, START, steps);
    RunsKeepInv(classify, START, steps);
    FinishKeepsView(classify, s, autos);
    if id in s.live && id in s.sweep.value { FinishAgrees(classify, s, autos, id); }
  }

  /** The newest notification a sweep has read of a live session has been delivered when it
      finishes. */
  lemma NewestIsDelivered(classify: Option<Classifier>, s: Sys, autos: map<Id, string>, id: Id)
    requires Inv(s) && Enabled(s, Finish(autos)) && id in Covered(s)
    ensures
      var t := FinishSweep(classify, s, autos);
      var seq_ := s.sweep.value[id].notifSeq;
      && t.trackers[id].delivered == Max(s.trackers[id].delivered, seq_)
      && (seq_ > s.trackers[id].delivered ==> LogOf(t.log, id) == LogOf(s.log, id) + [seq_])
  {}

  /** Over any run, each session's notifications reach a listener in strictly rising order. */
  lemma DeliveryRises(classify: Option<Classifier>, steps: seq<Step>, id: Id)
    requires Runs(classify, START, steps) && id in After(classify, START, steps).log
    ensures Rising(After(classify, START, steps).log[id])
  {
    RunsKeepInv(classify, START, steps);
  }

  // --- what outranks what --------------------------------------------------------------------

  /** The tracker after one look at a session. */
  function Looked(classify: Option<Classifier>, t: Tracker, i: Inputs): Tracker {
    t.(latched := ComputeStatus(classify, i, t).1, seen := SeenAfter(classify, i, t.seen))
  }

  /** ... and after several, one sweep after another. */
  function LookedAll(classify: Option<Classifier>, t: Tracker, looks: seq<Inputs>): Tracker
    decreases |looks|
  {
    if looks == [] then t else LookedAll(classify, Looked(classify, t, looks[0]), looks[1..])
  }

  /** A sweep leaves the latch and the cursor one look leaves, whatever it emits. */
  lemma SweepLooks(classify: Option<Classifier>, i: Inputs, t: Tracker, titles: Titles, order: nat)
    ensures
      var u := Sweep(classify, i, t, titles, order).tracker;
      u.(last := t.last, delivered := t.delivered) == Looked(classify, t, i)
  {}

  /** The program works, or has failed, and says so: progress 1, 2 or 3. */
  predicate Claims(i: Inputs) { 1 <= i.progress <= 3 }

  /** It runs, and has notified of nothing the tracker has not seen. */
  predicate NoNews(i: Inputs, seen: nat) { !i.exited && i.notifSeq <= seen }

  predicate Quiet(i: Inputs, seen: nat) { NoNews(i, seen) && !Claims(i) }

  /** A program that has exited shows nothing else, and its latch is left as it was. */
  lemma ExitOutranks(classify: Option<Classifier>, i: Inputs, t: Tracker)
    requires i.exited
    ensures ComputeStatus(classify, i, t) == (if i.crashed then Crashed else Exited, t.latched)
  {}

  /** A notification the classifier knows shows at once, over any progress, and stays. */
  lemma NewsOutranks(classify: Option<Classifier>, i: Inputs, t: Tracker, known: Status)
    requires !i.exited && i.notifSeq > t.seen && classify.Some? && classify.value(i.notif) == Some(known)
    ensures ComputeStatus(classify, i, t).0 == known && Looked(classify, t, i).latched == Some(known)
    ensures Looked(classify, t, i).seen == i.notifSeq
  {}

  /** What is latched holds through any looks at which the program makes no claim and no
      notification is new, paused or not. */
  lemma {:induction false} LatchHolds(classify: Option<Classifier>, t: Tracker, looks: seq<Inputs>, i: Inputs)
    requires t.latched.Some? && forall k :: 0 <= k < |looks| ==> Quiet(looks[k], t.seen)
    requires Quiet(i, t.seen)
    ensures
      var u := LookedAll(classify, t, looks);
      u.latched == t.latched && u.seen == t.seen && ComputeStatus(classify, i, u).0 == t.latched.value
    decreases |looks|
  {
    if looks != [] {
      assert Quiet(looks[0], t.seen);
      LatchHolds(classify, Looked(classify, t, looks[0]), looks[1..], i);
    }
  }

  /** A claim shows, clears the latch, and nothing brings the latch back but a new
      notification: from then on progress alone is shown. */
  lemma {:induction false} ClaimClears(classify: Option<Classifier>, t: Tracker, claim: Inputs, looks: seq<Inputs>, i: Inputs)
    requires NoNews(claim, t.seen) && Claims(claim) && NoNews(i, t.seen)
    requires forall k :: 0 <= k < |looks| ==> NoNews(looks[k], t.seen)
    ensures ComputeStatus(classify, claim, t).0 == if claim.progress == 2 then Failed else Working
    ensures
      var u := LookedAll(classify, Looked(classify, t, claim), looks);
      && u.latched == None && u.seen == t.seen
      && ComputeStatus(classify, i, u).0 ==
         match i.progress
         case 1 => Working
         case 2 => Failed
         case 3 => Working
         case 4 => Warning
         case _ => Idle
  {
    UnlatchedStays(classify, Looked(classify, t, claim), looks);
  }

  lemma {:induction false} UnlatchedStays(classify: Option<Classifier>, t: Tracker, looks: seq<Inputs>)
    requires t.latched == None && forall k :: 0 <= k < |looks| ==> NoNews(looks[k], t.seen)
    ensures LookedAll(classify, t, looks).latched == None && LookedAll(classify, t, looks).seen == t.seen
    decreases |looks|
  {
    if looks != [] {
      assert NoNews(looks[0], t.seen);
      UnlatchedStays(classify, Looked(classify, t, looks[0]), looks[1..]);
    }
  }

  /** The title shown is the first there is of the user's, the program's, the client's and
      the automatic one. */
  lemma FirstTitleShows(t: Titles, osc: string, k: nat)
    requires k < 4
    ensures
      var titles := [t.pinned, osc, t.client, t.auto];
      titles[k] != "" && (forall j :: 0 <= j < k ==> titles[j] == "") ==> Effective(t, osc) == titles[k]
  {
    var titles := [t.pinned, osc, t.client, t.auto];
    assert titles[0] == t.pinned && titles[1] == osc && titles[2] == t.client;
  }
}
