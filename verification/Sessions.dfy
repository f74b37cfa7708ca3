/** The set of live sessions and the order they are shown in. */
module Sessions {
  import opened Prelude

  /** A list that names every member of a set once. */
  predicate Enumerates<T(==)>(order: seq<T>, live: set<T>) {
    NoRepeats(order) && (set x | x in order) == live
  }

  predicate NoRepeats<T(==)>(s: seq<T>) { forall i, j :: 0 <= i < j < |s| ==> s[i] != s[j] }

  lemma {:induction false} MembersOf<T>(s: seq<T>)
    requires NoRepeats(s)
    ensures |set x | x in s| == |s|
    decreases |s|
  {
    if s != [] {
      var n := |s| - 1;
      MembersOf(s[..n]);
      assert (set x | x in s) == (set x | x in s[..n]) + {s[n]};
      assert s[n] !in (set x | x in s[..n]);
    }
  }

  /** A list as long as a set, all of it in the set and without repeats, names all of it. */
  lemma ExactLengthEnumerates<T>(s: seq<T>, live: set<T>)
    requires NoRepeats(s) && (forall i :: 0 <= i < |s| ==> s[i] in live) && |s| == |live|
    ensures Enumerates(s, live)
  {
    MembersOf(s);
    var members := set x | x in s;
    assert members <= live;
    SubsetOfSameSize(members, live);
  }

  lemma SubsetOfSameSize<T>(a: set<T>, b: set<T>)
    requires a <= b && |a| == |b|
    ensures a == b
  {
    assert |b - a| == |b| - |a|;
  }

  /** The list without one of its members, the gap closed. */
  function Without<T(==)>(s: seq<T>, x: T): seq<T> {
    if s == [] then [] else if s[0] == x then s[1..] else [s[0]] + Without(s[1..], x)
  }

  lemma {:induction false} WithoutEnumerates<T>(s: seq<T>, live: set<T>, x: T)
    requires Enumerates(s, live)
    ensures Enumerates(Without(s, x), live - {x})
    decreases |s|
  {
    if s != [] {
      var rest := live - {s[0]};
      assert Enumerates(s[1..], rest) by {
        assert forall y :: y in s <==> y == s[0] || y in s[1..];
      }
      if s[0] == x {
      } else {
        WithoutEnumerates(s[1..], rest, x);
        var w := Without(s[1..], x);
        assert forall y :: y in w <==> y in rest - {x};
        var all := [s[0]] + w;
        assert forall y :: y in all <==> y in live - {x};
        assert NoRepeats(all) by {
          forall i, j | 0 <= i < j < |all| ensures all[i] != all[j] {
            assert all[j] == w[j - 1];
            assert all[j] in w;
          }
        }
      }
    }
  }

  // --- the order sessions are served in ------------------------------------------------------

  /** A session's place in the order, past the end if it has none. */
  function Position<Id(==)>(order: seq<Id>, id: Id): (n: nat)
    ensures n <= |order| && (n < |order| ==> order[n] == id) && (id in order ==> n < |order|)
  {
    if order == [] then 0 else if order[0] == id then 0 else 1 + Position(order[1..], id)
  }

  datatype SortKey = SortKey(rank: int, createdAt: int, id: int)

  /** Rank first, then age, then id. */
  function Compare(a: SortKey, b: SortKey): int {
    if a.rank != b.rank then Sign(a.rank - b.rank)
    else if a.createdAt != b.createdAt then Sign(a.createdAt - b.createdAt)
    else Sign(a.id - b.id)
  }

  function Sign(n: int): int { if n < 0 then -1 else if n > 0 then 1 else 0 }

  ghost predicate Ascending<Id>(served: seq<Id>, key: Id -> SortKey) {
    forall i, j :: 0 <= i < j < |served| ==> Compare(key(served[i]), key(served[j])) <= 0
  }

  /** Distinct places in ascending order leave room for those still to come and those
      already gone. */
  lemma {:induction false} PlacesRise<Id>(order: seq<Id>, served: seq<Id>, key: Id -> SortKey, i: nat)
    requires NoRepeats(served) && Ascending(served, key) && i < |served|
    requires forall x :: x in served ==> x in order && key(x).rank == Position(order, x)
    ensures i <= Position(order, served[i])
    decreases i
  {
    if i > 0 {
      PlacesRise(order, served, key, i - 1);
      RankRises(order, served, key, i - 1, i);
    }
  }

  lemma {:induction false} PlacesFit<Id>(order: seq<Id>, served: seq<Id>, key: Id -> SortKey, i: nat)
    requires NoRepeats(served) && Ascending(served, key) && i < |served|
    requires forall x :: x in served ==> x in order && key(x).rank == Position(order, x)
    ensures Position(order, served[i]) + (|served| - i) <= |order|
    decreases |served| - i
  {
    assert served[i] in order;
    if i + 1 < |served| {
      PlacesFit(order, served, key, i + 1);
      RankRises(order, served, key, i, i + 1);
    }
  }

  lemma RankRises<Id>(order: seq<Id>, served: seq<Id>, key: Id -> SortKey, i: nat, j: nat)
    requires NoRepeats(served) && Ascending(served, key) && i < j < |served|
    requires forall x :: x in served ==> x in order && key(x).rank == Position(order, x)
    ensures Position(order, served[i]) < Position(order, served[j])
  {
    assert served[i] in order && served[j] in order;
    assert Compare(key(served[i]), key(served[j])) <= 0;
  }

  /** However the live sessions are gathered, sorting them by `Compare` serves them in the
      shared display order, every one of them in its place. */
  lemma ServedInDisplayOrder<Id>(order: seq<Id>, live: set<Id>, served: seq<Id>, key: Id -> SortKey)
    requires Enumerates(order, live) && Enumerates(served, live) && Ascending(served, key)
    requires forall x :: x in live ==> key(x).rank == Position(order, x)
    ensures served == order
  {
    MembersOf(order);
    MembersOf(served);
    assert forall x :: x in served <==> x in live;
    assert forall x :: x in order <==> x in live;
    forall i | 0 <= i < |served| ensures served[i] == order[i] {
      PlacesRise(order, served, key, i);
      PlacesFit(order, served, key, i);
    }
  }

  class SessionManager<Id(==)> {
    var sessions: set<Id>
    var order: seq<Id>
    var created: nat
    var closed: nat
    var reaped: nat

    /** The order names every live session once, and every session ever created is live,
        closed or reaped. */
    ghost predicate Valid()
      reads this
    {
      Enumerates(order, sessions) && created == |sessions| + closed + reaped
    }

    constructor ()
      ensures Valid() && sessions == {} && created == 0
    {
      sessions, order, created, closed, reaped := {}, [], 0, 0, 0;
    }

    /** A session goes to the back of the order; its id is new. */
    method Create(id: Id) returns (position: nat)
      requires Valid() && id !in sessions
      modifies this
      ensures Valid() && sessions == old(sessions) + {id} && order == old(order) + [id]
      ensures position < |order| && order[position] == id && created == old(created) + 1
    {
      sessions := sessions + {id};
      order := order + [id];
      position := |order| - 1;
      created := created + 1;
      assert forall y :: y in order <==> y in old(order) || y == id;
    }

    /** The first place an id has, if any. */
    method Index(id: Id) returns (i: int)
      ensures -1 <= i < |order| && (i >= 0 ==> order[i] == id) && (i < 0 <==> id !in order)
      ensures i >= 0 ==> Without(order, id) == order[..i] + order[i + 1..]
    {
      assert order[0..] == order;
      for k := 0 to |order|
        invariant id !in order[..k]
        invariant Without(order, id) == order[..k] + Without(order[k..], id)
      {
        if order[k] == id {
          assert order[k..][1..] == order[k + 1..];
          return k;
        }
        assert order[k..][1..] == order[k + 1..];
        assert order[..k] + ([order[k]] + Without(order[k + 1..], id)) == order[..k + 1] + Without(order[k + 1..], id);
      }
      return -1;
    }

    method Close(id: Id) returns (ok: bool)
      requires Valid()
      modifies this
      ensures Valid() && ok == (id in old(sessions)) && sessions == old(sessions) - {id}
      ensures order == if ok then Without(old(order), id) else old(order)
      ensures closed == old(closed) + (if ok then 1 else 0)
    {
      ok := id in sessions;
      if ok {
        WithoutEnumerates(order, sessions, id);
        var i := Index(id);
        sessions := sessions - {id};
        if i >= 0 { order := order[..i] + order[i + 1..]; }
        closed := closed + 1;
      }
    }

    /** Accepts exactly the permutations of the live sessions; anything else changes
        nothing. */
    method SetSessionOrder(ids: seq<Id>) returns (ok: bool)
      requires Valid()
      modifies this`order
      ensures Valid() && ok == Enumerates(ids, sessions)
      ensures order == if ok then ids else old(order)
    {
      if |ids| != |sessions| {
        if Enumerates(ids, sessions) { MembersOf(ids); }
        return false;
      }
      var seen: set<Id> := {};
      for i := 0 to |ids|
        invariant NoRepeats(ids[..i]) && seen == (set x | x in ids[..i])
        invariant forall k :: 0 <= k < i ==> ids[k] in sessions
      {
        if ids[i] !in sessions { return false; }
        if ids[i] in seen {
          var k :| 0 <= k < i && ids[..i][k] == ids[i];
          assert ids[k] == ids[i];
          return false;
        }
        assert ids[..i + 1] == ids[..i] + [ids[i]];
        seen := seen + {ids[i]};
      }
      assert ids[..|ids|] == ids;
      ExactLengthEnumerates(ids, sessions);
      order := ids;
      return true;
    }

    /** With no client for the idle window, every session goes at once. */
    method MaybeReap(clients: nat, idle: bool) returns (victims: set<Id>)
      requires Valid()
      modifies this
      ensures Valid()
      ensures victims == if clients == 0 && idle then old(sessions) else {}
      ensures sessions == old(sessions) - victims
      ensures order == if victims == {} then old(order) else []
    {
      if clients > 0 || sessions == {} || !idle { return {}; }
      victims := sessions;
      reaped := reaped + |sessions|;
      sessions, order := {}, [];
    }

    method Shutdown() returns (victims: set<Id>)
      requires Valid()
      modifies this`sessions, this`order
      ensures Enumerates(order, sessions) && sessions == {} && victims == old(sessions)
    {
      victims := sessions;
      sessions, order := {}, [];
    }
  }
}
