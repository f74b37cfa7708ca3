/** The flat parameter slots as the parser keeps them, proved to stand for grouped
    parameters, with every walk over group starts in bounds. */
module ParamSlots {
  import opened Prelude
  import opened CsiParams

  /** The slot at which group `g` starts. */
  function GroupStart(groups: seq<seq<nat>>, g: nat): nat
    requires g <= |groups|
  {
    |Flatten(groups[..g])|
  }

  lemma GroupStartStep(groups: seq<seq<nat>>, g: nat)
    requires g < |groups|
    ensures GroupStart(groups, g + 1) == GroupStart(groups, g) + |groups[g]|
  {
    assert groups[..g + 1] == groups[..g] + [groups[g]];
    FlattenSnoc(groups[..g], groups[g]);
  }

  /** Starts rise strictly while the groups before them are not empty. */
  lemma {:induction false} GroupStartsRise(groups: seq<seq<nat>>, a: nat, b: nat)
    requires a < b <= |groups| && forall g :: 0 <= g < b ==> groups[g] != []
    ensures GroupStart(groups, a) < GroupStart(groups, b)
    decreases b
  {
    GroupStartStep(groups, b - 1);
    if a < b - 1 { GroupStartsRise(groups, a, b - 1); }
  }

  /** Group g's values sit at its start slot. */
  lemma {:induction false} GroupInFlat(groups: seq<seq<nat>>, g: nat)
    requires g < |groups|
    ensures var a := GroupStart(groups, g);
            a + |groups[g]| <= |Flatten(groups)| && Flatten(groups)[a..a + |groups[g]|] == groups[g]
    decreases |groups|
  {
    assert Flatten(groups) == groups[0] + Flatten(groups[1..]);
    if g == 0 {
      assert groups[..0] == [];
    } else {
      GroupInFlat(groups[1..], g - 1);
      assert groups[..g] == [groups[0]] + groups[1..][..g - 1];
      assert groups[..g][1..] == groups[1..][..g - 1];
    }
  }

  /** Each group's length is stored at its start slot. */
  ghost predicate Lengths(groups: seq<seq<nat>>, lens: seq<nat>) {
    forall g {:trigger groups[g]} :: 0 <= g < |groups| ==>
      GroupStart(groups, g) < |lens| && lens[GroupStart(groups, g)] == |groups[g]|
  }

  lemma StartStored(groups: seq<seq<nat>>, lens: seq<nat>, g: nat)
    requires Lengths(groups, lens) && g < |groups|
    ensures GroupStart(groups, g) < |lens| && lens[GroupStart(groups, g)] == |groups[g]|
  {
    var group := groups[g];
  }

  class Slots {
    const pParams: array<nat>
    const pGroupLen: array<nat>
    var numParams: nat
    var numGroups: nat
    var curParam: nat
    var ignoring: bool
    ghost var model: Params

    ghost predicate Valid()
      reads this, pParams, pGroupLen
    {
      && pParams.Length == MAX_PARAMS == pGroupLen.Length && pParams != pGroupLen
      && model.groups != [] && numGroups == |model.groups|
      && numParams == Size(model) <= MAX_PARAMS
      && pParams[..numParams] == Flatten(model.groups)
      && curParam == model.cur && ignoring == model.ignoring
      && (forall g :: 0 <= g < numGroups - 1 ==> model.groups[g] != [])
      && Lengths(model.groups, pGroupLen[..])
    }

    constructor ()
      ensures Valid() && model == CLEARED && fresh(pParams) && fresh(pGroupLen)
    {
      pParams := new nat[MAX_PARAMS](_ => 0);
      pGroupLen := new nat[MAX_PARAMS](_ => 0);
      numParams, numGroups, curParam, ignoring := 0, 1, 0, false;
      model := CLEARED;
      new;
      assert model.groups[..0] == [];
      assert pParams[..0] == [];
    }

    method ParserClear()
      requires Valid()
      modifies this, pGroupLen
      ensures Valid() && model == CLEARED
    {
      numParams, numGroups, curParam, ignoring := 0, 1, 0, false;
      pGroupLen[0] := 0;
      model := CLEARED;
      assert model.groups[..0] == [];
    }

    /** The walk over group lengths: start(k+1) = start(k) + length stored there. */
    method GroupStartIdx(g: nat) returns (idx: nat)
      requires Valid() && g < numGroups
      ensures idx == GroupStart(model.groups, g)
    {
      idx := 0;
      assert model.groups[..0] == [];
      for k := 0 to g
        invariant idx == GroupStart(model.groups, k)
      {
        GroupStartStep(model.groups, k);
        StartStored(model.groups, pGroupLen[..], k);
        idx := idx + pGroupLen[idx];
      }
    }

    /** Store `curParam` in the open group: the part both push paths share. */
    method Store()
      requires Valid() && numParams < MAX_PARAMS
      modifies this, pParams, pGroupLen
      ensures Valid()
      ensures model == old(model).(groups := AppendLast(old(model).groups, old(model).cur))
    {
      ghost var was := model.groups;
      ghost var last := |was| - 1;
      var gStart := GroupStartIdx(numGroups - 1);
      StartStored(was, pGroupLen[..], last);
      ghost var lens := pGroupLen[..];
      pParams[numParams] := curParam;
      numParams := numParams + 1;
      pGroupLen[gStart] := pGroupLen[gStart] + 1;
      model := model.(groups := AppendLast(was, model.cur));
      FlattenAppendLast(was, curParam);
      forall g | 0 <= g < numGroups
        ensures GroupStart(model.groups, g) < MAX_PARAMS && pGroupLen[..][GroupStart(model.groups, g)] == |model.groups[g]|
      {
        assert model.groups[..g] == was[..g];
        StartStored(was, lens, g);
        if g < last { GroupStartsRise(was, g, last); }
      }
    }

    method PushParam(newGroup: bool)
      requires Valid()
      modifies this, pParams, pGroupLen
      ensures Valid() && model == Push(old(model), newGroup)
    {
      if numParams >= MAX_PARAMS {
        ignoring := true;
        model := model.(ignoring := true);
        return;
      }
      Store();
      curParam := 0;
      model := model.(cur := 0);
      assert Size(model) == Size(old(model)) + 1 by { FlattenAppendLast(old(model).groups, old(model).cur); }
      if newGroup && numGroups < MAX_PARAMS && numParams < MAX_PARAMS {
        OpenGroup();
      } else if newGroup && numParams < MAX_PARAMS {
        FewerGroupsThanValues(model.groups);
      }
    }

    method OpenGroup()
      requires Valid() && numParams < MAX_PARAMS && model.groups[numGroups - 1] != []
      modifies this, pGroupLen
      ensures Valid() && model == old(model).(groups := old(model).groups + [[]])
    {
      ghost var was, lens := model.groups, pGroupLen[..];
      pGroupLen[numParams] := 0;
      numGroups := numGroups + 1;
      model := model.(groups := was + [[]]);
      FlattenSnoc(was, []);
      assert was[..|was|] == was;
      forall g | 0 <= g < numGroups
        ensures GroupStart(model.groups, g) < MAX_PARAMS && pGroupLen[..][GroupStart(model.groups, g)] == |model.groups[g]|
      {
        if g < |was| {
          assert model.groups[..g] == was[..g];
          StartStored(was, lens, g);
          GroupStartsRise(was, g, |was|);
        } else {
          assert model.groups[..g] == was;
        }
      }
    }

    method HandleParam(b: char)
      requires Valid()
      requires b == ';' || '0' <= b <= '9'
      modifies this, pParams, pGroupLen
      ensures Valid() && model == Feed(old(model), b)
    {
      if ignoring { return; }
      if b == ';' {
        PushParam(true);
      } else {
        curParam := Min(curParam * 10 + (b - '0') as int, MAX_VALUE);
        model := model.(cur := curParam);
      }
    }

    method HandleSubparam()
      requires Valid()
      modifies this, pParams, pGroupLen
      ensures Valid() && model == Feed(old(model), ':')
    {
      if ignoring { return; }
      PushParam(false);
    }

    method FinalizeParams()
      requires Valid()
      modifies this, pParams, pGroupLen
      ensures Valid() && model == Finalize(old(model))
    {
      if ignoring || numParams >= MAX_PARAMS { return; }
      Store();
    }

    /** Group i as the handlers read it: at most eight values, none past the end. */
    method ParamGroup(i: nat) returns (values: seq<nat>)
      requires Valid()
      ensures values == if i < |model.groups| then model.groups[i][..Min(GROUP_CUT, |model.groups[i]|)] else []
    {
      if i >= numGroups { return []; }
      var start := GroupStartIdx(i);
      StartStored(model.groups, pGroupLen[..], i);
      var length := pGroupLen[start];
      if length == 0 { return []; }
      length := Min(length, Min(GROUP_CUT, MAX_PARAMS - start));
      GroupInFlat(model.groups, i);
      values := [];
      for j := 0 to length
        invariant length <= |model.groups[i]| && start + |model.groups[i]| <= numParams
        invariant values == model.groups[i][..j]
      {
        assert model.groups[i][j] == Flatten(model.groups)[start..start + |model.groups[i]|][j];
        assert pParams[start + j] == pParams[..numParams][start + j];
        values := values + [pParams[start + j]];
      }
    }

    /** Every group in full, walked slot by slot. */
    method AllGroups() returns (groups: seq<seq<nat>>)
      requires Valid()
      ensures groups == model.groups
    {
      var start := 0;
      groups := [];
      assert model.groups[..0] == [];
      for g := 0 to numGroups
        invariant groups == model.groups[..g] && start == GroupStart(model.groups, g)
      {
        StartStored(model.groups, pGroupLen[..], g);
        GroupInFlat(model.groups, g);
        GroupStartStep(model.groups, g);
        var next := start + pGroupLen[start];
        assert pParams[start..next] == pParams[..numParams][start..next];
        groups := groups + [pParams[start..next]];
        start := next;
      }
    }
  }

  /** Nonempty groups are no more numerous than their values. */
  lemma {:induction false} FewerGroupsThanValues(groups: seq<seq<nat>>)
    requires forall g :: 0 <= g < |groups| ==> groups[g] != []
    ensures |groups| <= |Flatten(groups)|
  {
    if groups != [] {
      assert forall g :: 0 <= g < |groups| - 1 ==> groups[1..][g] == groups[g + 1];
      FewerGroupsThanValues(groups[1..]);
    }
  }

  /** Reading a whole parameter string through the slots gives the nested split, cut
      to the slots there are. */
  method ReadParams(s: Slots, text: string)
    requires s.Valid()
    requires forall i :: 0 <= i < |text| ==> text[i] in ":;0123456789"
    modifies s, s.pParams, s.pGroupLen
    ensures s.Valid() && s.model.groups == Truncate(Nested(text), MAX_PARAMS)
  {
    s.ParserClear();
    for i := 0 to |text|
      invariant s.Valid() && s.model.groups != []
      invariant FeedAll(CLEARED, text) == FeedAll(s.model, text[i..])
    {
      assert text[i..][1..] == text[i + 1..];
      assert text[i] in ":;0123456789";
      if text[i] == ':' {
        s.HandleSubparam();
      } else {
        s.HandleParam(text[i]);
      }
    }
    s.FinalizeParams();
    ParseIsNestedSplit(text);
  }
}
