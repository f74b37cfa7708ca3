/** The client's adaptive page size: it falls to the floor when a reply times out, climbs
    back by doubling, and never again asks for more than half of what failed. */
module PageBudget {
  import opened Prelude

  const MIN_PAGE := 125

  datatype Budget = Budget(size: nat, ceiling: nat, inFlight: Option<nat>)

  datatype Step =
    | Ask(maxLines: nat)
    | Timeout
    | Reply(contained: bool)

  function Fresh(page: nat): Budget { Budget(page, page, None) }

  /** A request needs the last one settled, and asks for at least a line. */
  predicate Enabled(b: Budget, s: Step) {
    match s
    case Ask(maxLines) => b.inFlight.None? && maxLines >= 1
    case Timeout => b.inFlight.Some?
    case Reply(_) => b.inFlight.Some?
  }

  function Next(b: Budget, s: Step): Budget {
    match s
    case Ask(maxLines) => b.(inFlight := Some(Min(maxLines, b.size)))
    case Timeout =>
      var failed := if b.inFlight.Some? then b.inFlight.value else 0;
      Budget(MIN_PAGE, Max(MIN_PAGE, failed / 2), None)
    case Reply(contained) =>
      if contained then b.(inFlight := None, size := Min(b.size * 2, b.ceiling)) else b
  }

  class HistoryState {
    var effMax: nat
    var budgetCeiling: nat
    var inFlight: Option<nat>

    constructor (pageSize: nat)
      ensures Model() == Fresh(pageSize)
    {
      effMax, budgetCeiling, inFlight := pageSize, pageSize, None;
    }

    ghost function Model(): Budget
      reads this
    {
      Budget(effMax, budgetCeiling, inFlight)
    }

    method RequestHistory(maxLines: nat) returns (bounded: nat)
      requires maxLines >= 1 && inFlight.None?
      modifies this
      ensures Model() == Next(old(Model()), Ask(maxLines)) && inFlight == Some(bounded)
    {
      bounded := Min(maxLines, effMax);
      inFlight := Some(bounded);
    }

    method OnHistoryDataTimeout()
      requires inFlight.Some?
      modifies this
      ensures Model() == Next(old(Model()), Timeout)
    {
      var failed := inFlight.value;
      inFlight := None;
      budgetCeiling := Max(MIN_PAGE, failed / 2);
      effMax := MIN_PAGE;
    }

    method CorrelateHistoryReply(contained: bool)
      requires inFlight.Some?
      modifies this
      ensures Model() == Next(old(Model()), Reply(contained))
    {
      if contained {
        inFlight := None;
        effMax := Min(effMax * 2, budgetCeiling);
      }
    }
  }

  predicate Runs(b: Budget, steps: seq<Step>)
    decreases |steps|
  {
    steps == [] || (Enabled(b, steps[0]) && Runs(Next(b, steps[0]), steps[1..]))
  }

  function After(b: Budget, steps: seq<Step>): Budget
    decreases |steps|
  {
    if steps == [] then b else After(Next(b, steps[0]), steps[1..])
  }

  /** Timeouts of requests for more than the floor. */
  function BigTimeouts(b: Budget, steps: seq<Step>): nat
    decreases |steps|
  {
    if steps == [] then 0
    else
      (if steps[0] == Timeout && b.inFlight.Some? && b.inFlight.value > MIN_PAGE then 1 else 0)
      + BigTimeouts(Next(b, steps[0]), steps[1..])
  }

  /** Nothing is asked for above the ceiling, and the ceiling is never under the floor. */
  predicate Sound(b: Budget) {
    MIN_PAGE <= b.ceiling && b.size <= b.ceiling && (b.inFlight.Some? ==> b.inFlight.value <= b.ceiling)
  }

  lemma StepKeepsSound(b: Budget, s: Step)
    requires Sound(b) && Enabled(b, s)
    ensures Sound(Next(b, s)) && Next(b, s).ceiling <= b.ceiling
  {}

  /** With a page of at least the floor, the ceiling never rises again. */
  lemma {:induction false} CeilingNeverRises(b: Budget, steps: seq<Step>)
    requires Sound(b) && Runs(b, steps)
    ensures Sound(After(b, steps)) && After(b, steps).ceiling <= b.ceiling
    decreases |steps|
  {
    if steps != [] {
      StepKeepsSound(b, steps[0]);
      CeilingNeverRises(Next(b, steps[0]), steps[1..]);
    }
  }

  /** Exactly with such a page: a smaller one is raised to the floor by its first timeout. */
  lemma CeilingNeverRisesExactly(page: nat)
    ensures page >= MIN_PAGE <==>
            (forall steps: seq<Step> :: Runs(Fresh(page), steps) ==> After(Fresh(page), steps).ceiling <= page)
  {
    if page >= MIN_PAGE {
      forall steps: seq<Step> | Runs(Fresh(page), steps) ensures After(Fresh(page), steps).ceiling <= page {
        CeilingNeverRises(Fresh(page), steps);
      }
    } else {
      var last: seq<Step> := [Timeout];
      var steps := [Ask(1)] + last;
      assert steps[1..] == last && last[1..] == [];
      assert Runs(Fresh(page), steps) by {
        assert Runs(Next(Fresh(page), Ask(1)), last);
      }
      assert After(Fresh(page), steps) == After(Next(Fresh(page), Ask(1)), last);
      assert After(Fresh(page), steps).ceiling == MIN_PAGE;
    }
  }

  /** The largest ceiling from which `n` big timeouts are the most there can be. */
  function Bound(n: nat): (b: nat)
    ensures b >= MIN_PAGE
  {
    if n == 0 then MIN_PAGE else 2 * Bound(n - 1) + 1
  }

  /** Under a ceiling of 125, 251, 503 or 1007 there are at most 0, 1, 2 or 3 timeouts of
      requests for more than 125 lines. */
  lemma {:induction false} FewBigTimeouts(b: Budget, steps: seq<Step>, n: nat)
    requires Sound(b) && Runs(b, steps) && b.ceiling <= Bound(n)
    ensures BigTimeouts(b, steps) <= n
    decreases |steps|
  {
    if steps != [] {
      StepKeepsSound(b, steps[0]);
      if steps[0] == Timeout && b.inFlight.Some? && b.inFlight.value > MIN_PAGE {
        assert n > 0;
        FewBigTimeouts(Next(b, steps[0]), steps[1..], n - 1);
      } else {
        FewBigTimeouts(Next(b, steps[0]), steps[1..], n);
      }
    }
  }

  lemma ThreeTimeoutsAtMost(page: nat, steps: seq<Step>)
    requires MIN_PAGE <= page <= 1007 && Runs(Fresh(page), steps)
    ensures BigTimeouts(Fresh(page), steps) <= 3
  {
    assert Bound(1) == 251;
    assert Bound(2) == 503;
    FewBigTimeouts(Fresh(page), steps, 3);
  }

  // --- 1007 is the most ----------------------------------------------------------------------

  /** From the floor, contained replies climb to the ceiling. */
  function Climb(n: nat): seq<Step> { if n == 0 then [] else [Ask(1), Reply(true)] + Climb(n - 1) }

  function Doubled(size: nat, ceiling: nat, n: nat): nat
    decreases n
  {
    if n == 0 then size else Doubled(Min(size * 2, ceiling), ceiling, n - 1)
  }

  lemma {:induction false} ClimbDoubles(b: Budget, n: nat, rest: seq<Step>)
    requires b.inFlight.None? && b.size >= 1 && b.ceiling >= 1
    ensures
      var c := Budget(Doubled(b.size, b.ceiling, n), b.ceiling, None);
      && (Runs(b, Climb(n) + rest) <==> Runs(c, rest))
      && BigTimeouts(b, Climb(n) + rest) == BigTimeouts(c, rest)
    decreases n
  {
    if n == 0 {
      assert Climb(0) + rest == rest;
    } else {
      var tail := Climb(n - 1) + rest;
      var steps := Climb(n) + rest;
      var b1 := Next(b, Ask(1));
      var b2 := Next(b1, Reply(true));
      assert steps[0] == Ask(1) && steps[1..] == [Reply(true)] + tail && steps[1..][1..] == tail;
      assert Runs(b, steps) <==> Runs(b2, tail);
      assert BigTimeouts(b, steps) == BigTimeouts(b1, steps[1..]) == BigTimeouts(b2, tail);
      ClimbDoubles(b2, n - 1, rest);
    }
  }

  /** Climb to the ceiling, ask for all of it, time out. */
  lemma FailAtTheTop(size: nat, ceiling: nat, n: nat, rest: seq<Step>)
    requires size >= 1 && ceiling > MIN_PAGE && Doubled(size, ceiling, n) == ceiling
    requires Runs(Budget(MIN_PAGE, Max(MIN_PAGE, ceiling / 2), None), rest)
    ensures
      var steps := Climb(n) + ([Ask(ceiling), Timeout] + rest);
      && Runs(Budget(size, ceiling, None), steps)
      && BigTimeouts(Budget(size, ceiling, None), steps) ==
         1 + BigTimeouts(Budget(MIN_PAGE, Max(MIN_PAGE, ceiling / 2), None), rest)
  {
    var tail := [Ask(ceiling), Timeout] + rest;
    ClimbDoubles(Budget(size, ceiling, None), n, tail);
    var c := Budget(ceiling, ceiling, None);
    var c1 := Next(c, Ask(ceiling));
    assert tail[0] == Ask(ceiling) && tail[1..] == [Timeout] + rest && tail[1..][1..] == rest;
    assert BigTimeouts(c, tail) == BigTimeouts(c1, tail[1..]);
    assert Next(c1, Timeout) == Budget(MIN_PAGE, Max(MIN_PAGE, ceiling / 2), None);
  }

  /** A page of 1008 lines allows a fourth. */
  lemma FourTimeoutsAt1008() returns (steps: seq<Step>)
    ensures Runs(Fresh(1008), steps) && BigTimeouts(Fresh(1008), steps) == 4
  {
    var none: seq<Step> := [];
    assert Doubled(125, 126, 1) == 126;
    FailAtTheTop(125, 126, 1, none);
    steps := Climb(1) + ([Ask(126), Timeout] + none);
    assert Doubled(250, 252, 1) == 252;
    FailAtTheTop(125, 252, 2, steps);
    steps := Climb(2) + ([Ask(252), Timeout] + steps);
    assert Doubled(500, 504, 1) == 504 && Doubled(250, 504, 2) == 504;
    FailAtTheTop(125, 504, 3, steps);
    steps := Climb(3) + ([Ask(504), Timeout] + steps);
    FailAtTheTop(1008, 1008, 0, steps);
    steps := Climb(0) + ([Ask(1008), Timeout] + steps);
  }
}
