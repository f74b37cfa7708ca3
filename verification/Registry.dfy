/** Connected sockets and the input ledgers kept for them: attaching, counting, and
    reclaiming ledgers nobody holds. */
module Registry {
  import opened Prelude

  const MAX_RESUME_SESSIONS := 1024
  const IDLE_WINDOW := 3600.0

  type Id = nat
  type Socket = nat

  /** One client's input ledger. Sockets keep it by reference: a ledger that has been
      reclaimed from the table goes on counting for the socket that holds it. */
  class Ledger {
    var bytesReceived: nat
    var lastSeen: real

    constructor (now: real)
      ensures bytesReceived == 0 && lastSeen == now
    {
      bytesReceived, lastSeen := 0, now;
    }
  }

  class Client {
    var session: Ledger?
    var lastAckSent: nat

    constructor ()
      ensures session == null && lastAckSent == 0
    {
      session, lastAckSent := null, 0;
    }
  }

  /** No two ids share a ledger. */
  ghost predicate Separate(table: map<Id, Ledger>) {
    forall a, b :: a in table && b in table && a != b ==> table[a] != table[b]
  }

  ghost predicate Within(table: map<Id, Ledger>, all: map<Id, Ledger>) {
    forall i :: i in table ==> i in all && table[i] == all[i]
  }

  lemma SubtableIsSeparate(table: map<Id, Ledger>, all: map<Id, Ledger>, id: Id, l: Ledger)
    requires Separate(all) && Within(table, all[id := l]) && forall i :: i in all ==> all[i] != l
    ensures Separate(table)
  {}

  class ClientRegistry {
    var clients: map<Socket, Client>
    var sessions: map<Id, Ledger>

    constructor ()
      ensures Valid() && clients == map[] && sessions == map[]
    {
      clients, sessions := map[], map[];
    }

    /** No two sockets share a client, no two ids a ledger, and the table is within its cap. */
    ghost predicate Valid()
      reads this
    {
      && (forall a, b :: a in clients && b in clients && a != b ==> clients[a] != clients[b])
      && Separate(sessions)
      && |sessions| <= MAX_RESUME_SESSIONS
    }

    method Add(ws: Socket) returns (c: Client)
      requires Valid() && ws !in clients
      modifies this
      ensures Valid() && fresh(c) && c.session == null && clients == old(clients)[ws := c] && sessions == old(sessions)
    {
      c := new Client();
      clients := clients[ws := c];
    }

    /** The socket's ledger outlives it; its idle clock starts here. */
    method Remove(ws: Socket, now: real)
      requires Valid()
      modifies this`clients, set l | l in HeldBy(ws)
      ensures Valid() && clients == old(clients) - {ws}
      ensures ws in old(clients) && old(clients[ws].session) != null ==> old(clients[ws].session).lastSeen == now
    {
      if ws in clients && clients[ws].session != null { clients[ws].session.lastSeen := now; }
      clients := clients - {ws};
    }

    ghost function HeldBy(ws: Socket): set<Ledger>
      reads this, clients.Values
    {
      if ws in clients && clients[ws].session != null then {clients[ws].session} else {}
    }

    /** Exactly the ledgers no socket holds, idle for longer than the window, go. */
    method GcIdleSessions(now: real)
      modifies this`sessions
      ensures sessions == map id | id in old(sessions) && !Reclaimable(old(sessions)[id], now) :: old(sessions)[id]
      ensures forall id :: id in old(sessions) && now <= old(sessions)[id].lastSeen + 3600.0 ==> id in sessions
      ensures forall id :: id in old(sessions) && Holds(old(sessions)[id]) ==> id in sessions
    {
      ghost var before := sessions;
      var todo := sessions.Keys;
      while todo != {}
        invariant todo <= before.Keys
        invariant sessions == map id | id in before && (id in todo || !Reclaimable(before[id], now)) :: before[id]
        decreases |todo|
      {
        var id :| id in todo;
        todo := todo - {id};
        if Reclaimable(sessions[id], now) { sessions := sessions - {id}; }
      }
    }

    predicate Reclaimable(l: Ledger, now: real)
      reads this`clients, clients.Values, l
    {
      now - l.lastSeen > IDLE_WINDOW && !Holds(l)
    }

    /** A ledger can be reclaimed exactly when no socket holds it and it was last seen more
        than an hour ago. */
    lemma ReclaimableExactly(l: Ledger, now: real)
      ensures Reclaimable(l, now) <==> (forall c :: c in clients ==> clients[c].session != l) && now > l.lastSeen + 3600.0
    {}

    /** Over the cap, one ledger goes: the longest unseen of those no socket holds, or of all
        of them if every one is held. */
    method EvictOldestSession() returns (victim: Option<Id>)
      modifies this`sessions
      ensures victim.None? <==> |old(sessions)| <= MAX_RESUME_SESSIONS
      ensures victim.Some? ==> Oldest(old(sessions), victim.value)
      ensures sessions == if victim.Some? then old(sessions) - {victim.value} else old(sessions)
    {
      if |sessions| <= MAX_RESUME_SESSIONS { return None; }
      victim := FindOldest(true);
      if victim.None? { victim := FindOldest(false); }
      if victim.Some? { sessions := sessions - {victim.value}; }
    }

    /** No other ledger is a better victim. */
    ghost predicate Oldest(table: map<Id, Ledger>, v: Id)
      reads this`clients, clients.Values, table.Values
    {
      && v in table
      && (Holds(table[v]) ==> forall id :: id in table ==> Holds(table[id]))
      && forall id :: id in table && (Holds(table[v]) || !Holds(table[id])) ==> table[v].lastSeen <= table[id].lastSeen
    }

    /** Some connected socket holds the ledger. */
    predicate Holds(l: Ledger)
      reads this`clients, clients.Values
    {
      exists c :: c in clients && clients[c].session == l
    }

    /** The longest unseen ledger, of those nobody holds or of all. */
    method FindOldest(unheld: bool) returns (best: Option<Id>)
      ensures best.None? <==> forall id :: id in sessions ==> unheld && Holds(sessions[id])
      ensures best.Some? ==> best.value in sessions && !(unheld && Holds(sessions[best.value]))
      ensures best.Some? ==> forall id :: id in sessions && !(unheld && Holds(sessions[id])) ==>
                sessions[best.value].lastSeen <= sessions[id].lastSeen
    {
      best := None;
      var todo := sessions.Keys;
      while todo != {}
        invariant todo <= sessions.Keys
        invariant best.None? <==> forall id :: id in sessions && id !in todo ==> unheld && Holds(sessions[id])
        invariant best.Some? ==> best.value in sessions && best.value !in todo && !(unheld && Holds(sessions[best.value]))
        invariant best.Some? ==> forall id :: id in sessions && id !in todo && !(unheld && Holds(sessions[id])) ==>
                    sessions[best.value].lastSeen <= sessions[id].lastSeen
        decreases |todo|
      {
        var id :| id in todo;
        todo := todo - {id};
        if !(unheld && Holds(sessions[id])) {
          if best.None? || sessions[id].lastSeen < sessions[best.value].lastSeen { best := Some(id); }
        }
      }
    }

    /** Attach a socket to its ledger, made anew if the table has none. A ledger a socket
        holds is never reclaimed by this: when the table would pass its cap and every other
        ledger is held, the new one, which no socket holds yet, goes instead. Otherwise it
        goes only on a tie with every ledger not held, all of them seen at this instant. */
    method ResolveSession(state: Client, id: Id, now: real) returns (ack: nat, created: bool)
      requires Valid() && state in clients.Values
      requires forall i :: i in sessions ==> sessions[i].lastSeen <= now
      modifies this`sessions, state, sessions.Values
      ensures Valid() && created == (id !in old(sessions)) && state.session != null && ack == state.session.bytesReceived
      ensures !created ==> sessions == old(sessions) && state.session == sessions[id] && sessions[id].lastSeen == now
      ensures created ==> fresh(state.session) && ack == 0
      ensures forall i :: i in old(sessions) && old(Holds(sessions[i])) ==> i in sessions && sessions[i] == old(sessions)[i]
      ensures created ==> (id in sessions ==> sessions[id] == state.session)
      ensures created && |old(Retained(now))| >= MAX_RESUME_SESSIONS && old(AllHeld(Retained(now), sessions)) ==> id !in sessions
      ensures created && id !in sessions ==>
                |old(Retained(now))| >= MAX_RESUME_SESSIONS && old(HeldOrSeen(Retained(now), sessions, now))
    {
      if id in sessions {
        sessions[id].lastSeen := now;
        state.session := sessions[id];
        return sessions[id].bytesReceived, false;
      }
      var fresh_ := new Ledger(now);
      Admit(id, fresh_, now);
      state.session := fresh_;
      return 0, true;
    }

    /** The ids whose ledgers the idle collection would leave. */
    ghost function Retained(now: real): set<Id>
      reads this, clients.Values, sessions.Values
    {
      set i | i in sessions && !Reclaimable(sessions[i], now)
    }

    /** A ledger just made, held by nobody yet, is the victim if all others are held, and
        only if all others are held or as new. */
    lemma NewestIsLast(table: map<Id, Ledger>, id: Id, v: Id)
      requires Oldest(table, v) && id in table && !Holds(table[id])
      requires forall i :: i in table && i != id ==> table[i].lastSeen <= table[id].lastSeen
      ensures !Holds(table[v])
      ensures (forall i :: i in table && i != id ==> Holds(table[i])) ==> v == id
      ensures v == id ==> forall i :: i in table && i != id ==> Holds(table[i]) || table[i].lastSeen == table[id].lastSeen
    {}

    /** Enter a new ledger and collect the idle ones. */
    method Enter(id: Id, l: Ledger, now: real)
      requires id !in sessions && l.lastSeen == now
      modifies this`sessions
      ensures Within(sessions, old(sessions)[id := l]) && sessions.Keys == old(Retained(now)) + {id}
    {
      sessions := sessions[id := l];
      GcIdleSessions(now);
    }

    /** Enter a new ledger, collect the idle ones, and evict one if that is not enough. */
    method Admit(id: Id, l: Ledger, now: real)
      requires Valid() && id !in sessions && l.lastSeen == now && !Holds(l)
      requires forall i :: i in sessions ==> sessions[i].lastSeen <= now && sessions[i] != l
      modifies this`sessions
      ensures Valid() && Within(sessions, old(sessions)[id := l])
      ensures forall i :: i in old(sessions) && Holds(old(sessions)[i]) ==> i in sessions
      ensures |old(Retained(now))| >= MAX_RESUME_SESSIONS && AllHeld(old(Retained(now)), old(sessions)) ==> id !in sessions
      ensures id !in sessions ==>
                |old(Retained(now))| >= MAX_RESUME_SESSIONS && HeldOrSeen(old(Retained(now)), old(sessions), now)
    {
      ghost var kept, before := Retained(now), sessions;
      Enter(id, l, now);
      Counts(sessions, kept, before, id);
      Evict(id, kept);
      SubtableIsSeparate(sessions, before, id, l);
    }

    method Evict(id: Id, ghost kept: set<Id>)
      requires id in sessions && !Holds(sessions[id]) && id !in kept && sessions.Keys == kept + {id}
      requires |sessions| == |kept| + 1 <= MAX_RESUME_SESSIONS + 1
      requires forall i :: i in sessions && i != id ==> sessions[i].lastSeen <= sessions[id].lastSeen
      modifies this`sessions
      ensures Within(sessions, old(sessions)) && |sessions| <= MAX_RESUME_SESSIONS
      ensures forall i :: i in old(sessions) && Holds(old(sessions)[i]) ==> i in sessions
      ensures |kept| >= MAX_RESUME_SESSIONS && AllHeld(kept, old(sessions)) ==> id !in sessions
      ensures id !in sessions ==>
                |kept| >= MAX_RESUME_SESSIONS && HeldOrSeen(kept, old(sessions), old(sessions)[id].lastSeen)
    {
      ghost var table := sessions;
      var victim := EvictOldestSession();
      if victim.Some? {
        NewestIsLast(table, id, victim.value);
        Counts(sessions, table.Keys - {victim.value}, table, victim.value);
      }
    }

    ghost predicate AllHeld(ids: set<Id>, table: map<Id, Ledger>)
      reads this`clients, clients.Values
    {
      forall i :: i in ids && i in table ==> Holds(table[i])
    }

    /** Each is held, or was last seen just now. */
    ghost predicate HeldOrSeen(ids: set<Id>, table: map<Id, Ledger>, now: real)
      reads this`clients, clients.Values, table.Values
    {
      forall i :: i in ids && i in table ==> Holds(table[i]) || table[i].lastSeen == now
    }

    /** Sizes of a table and of the parts it is made of. */
    lemma Counts(table: map<Id, Ledger>, kept: set<Id>, before: map<Id, Ledger>, id: Id)
      requires kept <= before.Keys && id !in kept
      ensures |kept| <= |before|
      ensures table.Keys == kept + {id} ==> |table| == |kept| + 1
      ensures table.Keys == kept ==> |table| == |kept|
    {
      assert |table| == |table.Keys| && |before| == |before.Keys|;
      SmallerSet(kept, before.Keys);
    }

    lemma SmallerSet(a: set<Id>, b: set<Id>)
      requires a <= b
      ensures |a| <= |b|
    {
      assert |b - a| == |b| - |a|;
    }

    /** Input counts for the ledger the socket holds, whether or not the table still has it. */
    method IncrementReceived(state: Client, n: nat, now: real)
      modifies state.session
      ensures state.session == old(state.session)
      ensures state.session != null && n > 0 ==>
                state.session.bytesReceived == old(state.session.bytesReceived) + n && state.session.lastSeen == now
    {
      if n == 0 { return; }
      if state.session != null {
        state.session.bytesReceived := state.session.bytesReceived + n;
        state.session.lastSeen := now;
      }
    }

    /** The highest ack each socket was told only ever rises. */
    method NoteAcksSent(acks: map<Socket, nat>)
      requires Valid()
      modifies clients.Values
      ensures forall ws :: ws in clients ==>
                clients[ws].lastAckSent == Max(old(clients[ws].lastAckSent), if ws in acks then acks[ws] else 0)
      ensures forall ws :: ws in clients ==> clients[ws].session == old(clients[ws].session)
    {
      var todo := acks.Keys;
      while todo != {}
        invariant todo <= acks.Keys
        invariant forall ws :: ws in clients ==> clients[ws].session == old(clients[ws].session)
        invariant forall ws :: ws in clients ==>
                    clients[ws].lastAckSent == Max(old(clients[ws].lastAckSent), if ws in acks && ws !in todo then acks[ws] else 0)
        decreases |todo|
      {
        var ws :| ws in todo;
        todo := todo - {ws};
        if ws in clients {
          if acks[ws] > clients[ws].lastAckSent { clients[ws].lastAckSent := acks[ws]; }
        }
      }
    }

    /** The sockets to send a bare ack: exactly those whose ledger's count is not the last
        one told, which is then noted as told. */
    method AckSweepTargets() returns (targets: map<Socket, nat>)
      requires Valid()
      modifies clients.Values
      ensures forall ws :: ws in targets <==>
                ws in clients && clients[ws].session != null && old(clients[ws].lastAckSent) != clients[ws].session.bytesReceived
      ensures forall ws :: ws in targets ==> targets[ws] == clients[ws].session.bytesReceived == clients[ws].lastAckSent
      ensures forall ws :: ws in clients ==> clients[ws].session == old(clients[ws].session)
      ensures forall ws :: ws in clients && ws !in targets ==> clients[ws].lastAckSent == old(clients[ws].lastAckSent)
    {
      targets := map[];
      var todo := clients.Keys;
      while todo != {}
        invariant todo <= clients.Keys
        invariant forall ws :: ws in targets <==>
                    ws in clients && ws !in todo && clients[ws].session != null &&
                    old(clients[ws].lastAckSent) != clients[ws].session.bytesReceived
        invariant forall ws :: ws in targets ==> targets[ws] == clients[ws].session.bytesReceived == clients[ws].lastAckSent
        invariant forall ws :: ws in clients ==> clients[ws].session == old(clients[ws].session)
        invariant forall ws :: ws in clients && ws !in targets ==> clients[ws].lastAckSent == old(clients[ws].lastAckSent)
        decreases |todo|
      {
        var ws :| ws in todo;
        todo := todo - {ws};
        var c := clients[ws];
        if c.session != null && c.session.bytesReceived != c.lastAckSent {
          targets := targets[ws := c.session.bytesReceived];
          c.lastAckSent := c.session.bytesReceived;
        }
      }
    }
  }
}
