/** Control-sequence parameters: 32 flat value slots with group lengths kept at each
    group's start slot, standing for the nested split of section 5.4.2 of ECMA-48
    (groups between `;`, values between `:`). */
module CsiParams {
  import opened Prelude

  const MAX_PARAMS := 32
  const MAX_VALUE := 65535
  const GROUP_CUT := 8

  // --- what the flat slots stand for ------------------------------------------------

  /** The values pushed so far, by group; the last group is still open. */
  datatype Params = Params(groups: seq<seq<nat>>, cur: nat, ignoring: bool)

  const CLEARED := Params([[]], 0, false)

  function Size(p: Params): nat { |Flatten(p.groups)| }

  function AppendLast(groups: seq<seq<nat>>, v: nat): seq<seq<nat>>
    requires groups != []
  {
    groups[..|groups| - 1] + [groups[|groups| - 1] + [v]]
  }

  /** Store the value being read; a `;` also opens the next group while a slot is left. */
  function Push(p: Params, newGroup: bool): Params
    requires p.groups != []
  {
    if Size(p) >= MAX_PARAMS then p.(ignoring := true)
    else
      var groups := AppendLast(p.groups, p.cur);
      p.(cur := 0, groups := if newGroup && Size(p) + 1 < MAX_PARAMS then groups + [[]] else groups)
  }

  /** One parameter byte: a digit, `:` or `;`. */
  function Feed(p: Params, c: char): (q: Params)
    requires p.groups != []
    ensures q.groups != []
  {
    if p.ignoring then p
    else if c == ';' then Push(p, true)
    else if c == ':' then Push(p, false)
    else p.(cur := Digit(p.cur, c))
  }

  function Digit(v: nat, c: char): nat {
    if '0' <= c <= '9' then Min(v * 10 + (c - '0') as int, MAX_VALUE) else v
  }

  function FeedAll(p: Params, text: string): (q: Params)
    requires p.groups != []
    ensures q.groups != []
    decreases |text|
  {
    if text == "" then p else FeedAll(Feed(p, text[0]), text[1..])
  }

  /** The trailing value is always stored, if a slot is left. */
  function Finalize(p: Params): (q: Params)
    requires p.groups != []
    ensures q.groups != []
  {
    if p.ignoring || Size(p) >= MAX_PARAMS then p
    else p.(groups := AppendLast(p.groups, p.cur))
  }

  function Parse(text: string): seq<seq<nat>> { Finalize(FeedAll(CLEARED, text)).groups }

  // --- the reference: split, then split again ----------------------------------------

  function SplitOn(text: string, sep: char): (parts: seq<string>)
    ensures parts != []
  {
    if text == "" then [""]
    else
      var rest := SplitOn(text[1..], sep);
      if text[0] == sep then [""] + rest else [[text[0]] + rest[0]] + rest[1..]
  }

  function Value(text: string): nat {
    if text == "" then 0 else Digit(Value(text[..|text| - 1]), text[|text| - 1])
  }

  function Values(parts: seq<string>): seq<nat> {
    if parts == [] then [] else [Value(parts[0])] + Values(parts[1..])
  }

  function Group(part: string): seq<nat> { Values(SplitOn(part, ':')) }

  function Groups(parts: seq<string>): seq<seq<nat>> {
    if parts == [] then [] else [Group(parts[0])] + Groups(parts[1..])
  }

  function Nested(text: string): seq<seq<nat>> { Groups(SplitOn(text, ';')) }

  /** The first `n` values, group by group; groups starting past them are gone. */
  function Truncate(groups: seq<seq<nat>>, n: nat): seq<seq<nat>>
    decreases |groups|
  {
    if groups == [] || n == 0 then []
    else if |groups[0]| <= n then [groups[0]] + Truncate(groups[1..], n - |groups[0]|)
    else [groups[0][..n]]
  }

  // --- lemmas about splitting at the end -------------------------------------------------

  /** What appending one byte does to a list of parts. */
  function Extend(parts: seq<string>, c: char, sep: char): seq<string>
    requires parts != []
  {
    if c == sep then parts + [""] else parts[..|parts| - 1] + [parts[|parts| - 1] + [c]]
  }

  /** Prepending a part, or a character to the first part, commutes with it. */
  lemma ExtendBehind(first: string, rest: seq<string>, c: char, sep: char)
    requires rest != []
    ensures Extend([first] + rest, c, sep) == [first] + Extend(rest, c, sep)
  {
    assert ([first] + rest)[..|rest|] == [first] + rest[..|rest| - 1];
  }

  lemma ExtendInside(t: char, rest: seq<string>, c: char, sep: char)
    requires rest != []
    ensures var more := Extend(rest, c, sep);
            Extend([[t] + rest[0]] + rest[1..], c, sep) == [[t] + more[0]] + more[1..]
  {
    var head, tail := [t] + rest[0], rest[1..];
    if tail == [] {
      assert [t] + (rest[0] + [c]) == head + [c];
    } else {
      ExtendBehind(head, tail, c, sep);
      ExtendBehind(rest[0], tail, c, sep);
      assert rest == [rest[0]] + tail;
    }
  }

  lemma {:induction false} SplitOnSnoc(text: string, c: char, sep: char)
    ensures SplitOn(text + [c], sep) == Extend(SplitOn(text, sep), c, sep)
    decreases |text|
  {
    if text == "" {
      var none: seq<string> := [""];
      assert ("" + [c])[1..] == "" && none[1..] == [] && none[..0] == [];
      assert SplitOn("" + [c], sep) == if c == sep then none + [""] else [[c] + ""] + [];
      assert [c] + "" == "" + [c];
    } else {
      assert (text + [c])[1..] == text[1..] + [c];
      SplitOnSnoc(text[1..], c, sep);
      if text[0] == sep {
        ExtendBehind("", SplitOn(text[1..], sep), c, sep);
      } else {
        ExtendInside(text[0], SplitOn(text[1..], sep), c, sep);
      }
    }
  }

  lemma {:induction false} ValuesSnoc(parts: seq<string>, last: string)
    ensures Values(parts + [last]) == Values(parts) + [Value(last)]
    decreases |parts|
  {
    if parts == [] {
      assert [] + [last] == [last] && [last][1..] == [];
    } else {
      assert (parts + [last])[1..] == parts[1..] + [last];
      ValuesSnoc(parts[1..], last);
    }
  }

  lemma {:induction false} GroupsSnoc(parts: seq<string>, last: string)
    ensures Groups(parts + [last]) == Groups(parts) + [Group(last)]
    decreases |parts|
  {
    if parts == [] {
      assert [] + [last] == [last] && [last][1..] == [];
    } else {
      assert (parts + [last])[1..] == parts[1..] + [last];
      GroupsSnoc(parts[1..], last);
    }
  }

  /** The split of a text still being read: closed groups, the open group's closed
      values, and the value under construction. */
  function Reading(text: string): (seq<seq<nat>>, nat) { ReadingOf(SplitOn(text, ';')) }

  function ReadingOf(parts: seq<string>): (seq<seq<nat>>, nat)
    requires parts != []
  {
    var last := SplitOn(parts[|parts| - 1], ':');
    (Groups(parts[..|parts| - 1]) + [Values(last[..|last| - 1])], Value(last[|last| - 1]))
  }

  lemma ReadingFinishes(text: string)
    ensures Reading(text).0 != []
    ensures Nested(text) == AppendLast(Reading(text).0, Reading(text).1)
  {
    var parts := SplitOn(text, ';');
    var last := SplitOn(parts[|parts| - 1], ':');
    GroupsSnoc(parts[..|parts| - 1], parts[|parts| - 1]);
    ValuesSnoc(last[..|last| - 1], last[|last| - 1]);
    assert parts == parts[..|parts| - 1] + [parts[|parts| - 1]];
    assert last == last[..|last| - 1] + [last[|last| - 1]];
    var g := Reading(text).0;
    assert g[..|g| - 1] == Groups(parts[..|parts| - 1]);
  }

  /** How reading one more byte changes the split read so far. */
  lemma ReadingSnoc(text: string, c: char)
    ensures var (g, v) := Reading(text);
            g != [] &&
            Reading(text + [c]) ==
              if c == ';' then (AppendLast(g, v) + [[]], 0)
              else if c == ':' then (AppendLast(g, v), 0)
              else (g, Digit(v, c))
  {
    var parts := SplitOn(text, ';');
    SplitOnSnoc(text, c, ';');
    if c == ';' {
      ReadingFinishes(text);
      assert (parts + [""])[..|parts|] == parts;
      var none: seq<string> := [""];
      assert SplitOn("", ':') == none && none[..0] == [];
    } else {
      ReadingInside(parts, c);
    }
  }

  lemma ReadingInside(parts: seq<string>, c: char)
    requires parts != [] && c != ';'
    ensures var (g, v) := ReadingOf(parts);
            g != [] && ReadingOf(Extend(parts, c, ';')) == if c == ':' then (AppendLast(g, v), 0) else (g, Digit(v, c))
  {
    var front, part := parts[..|parts| - 1], parts[|parts| - 1];
    assert (front + [part + [c]])[..|front|] == front;
    SplitOnSnoc(part, c, ':');
    LastGroupSnoc(SplitOn(part, ':'), c);
    var g := ReadingOf(parts).0;
    assert g[..|g| - 1] == Groups(front);
  }

  /** The open group, read one byte further. */
  lemma LastGroupSnoc(last: seq<string>, c: char)
    requires last != []
    ensures Values((last + [""])[..|last|]) == Values(last[..|last| - 1]) + [Value(last[|last| - 1])]
    ensures var grown := last[..|last| - 1] + [last[|last| - 1] + [c]];
            grown[..|grown| - 1] == last[..|last| - 1] && Value(grown[|grown| - 1]) == Digit(Value(last[|last| - 1]), c)
  {
    assert (last + [""])[..|last|] == last;
    ValuesSnoc(last[..|last| - 1], last[|last| - 1]);
    assert last == last[..|last| - 1] + [last[|last| - 1]];
    var w := last[|last| - 1];
    assert (w + [c])[..|w|] == w;
  }

  // --- truncation ----------------------------------------------------------------------

  lemma {:induction false} TruncateAll(groups: seq<seq<nat>>, n: nat)
    requires |Flatten(groups)| < n
    ensures Truncate(groups, n) == groups
    decreases |groups|
  {
    if groups != [] { TruncateAll(groups[1..], n - |groups[0]|); }
  }

  lemma {:induction false} TruncateConcat(a: seq<seq<nat>>, b: seq<seq<nat>>, n: nat)
    ensures Truncate(a + b, n)
         == if |Flatten(a)| < n then a + Truncate(b, n - |Flatten(a)|) else Truncate(a, n)
    decreases |a|
  {
    if a == [] {
      assert a + b == b;
    } else {
      assert (a + b)[1..] == a[1..] + b;
      if |a[0]| <= n { TruncateConcat(a[1..], b, n - |a[0]|); }
    }
  }

  lemma FlattenAppendLast(groups: seq<seq<nat>>, v: nat)
    requires groups != []
    ensures Flatten(AppendLast(groups, v)) == Flatten(groups) + [v]
  {
    var front, last := groups[..|groups| - 1], groups[|groups| - 1];
    assert groups == front + [last];
    FlattenSnoc(front, last);
    FlattenSnoc(front, last + [v]);
  }

  lemma TruncateOne(last: seq<nat>, v: nat, m: nat)
    requires 0 < m <= |last|
    ensures Truncate([last + [v]], m) == Truncate([last], m)
  {
    assert (last + [v])[..m] == last[..m] && (m == |last| ==> last[..m] == last);
    var one: seq<seq<nat>> := [last];
    assert one[1..] == [];
  }

  /** Past the last slot nothing changes any more. */
  lemma TruncateAppendLast(groups: seq<seq<nat>>, v: nat, n: nat)
    requires groups != [] && |Flatten(groups)| >= n
    ensures Truncate(AppendLast(groups, v), n) == Truncate(groups, n)
  {
    var front, last := groups[..|groups| - 1], groups[|groups| - 1];
    assert groups == front + [last];
    FlattenSnoc(front, last);
    TruncateConcat(front, [last], n);
    TruncateConcat(front, [last + [v]], n);
    if |Flatten(front)| < n {
      TruncateOne(last, v, n - |Flatten(front)|);
    }
  }

  // --- the flat form refines the nested split --------------------------------------------

  /** The slots hold the text read so far, cut to the slots there are. */
  ghost predicate Holds(p: Params, text: string) {
    var (g, v) := Reading(text);
    && p.groups != []
    && p.groups == Truncate(g, MAX_PARAMS)
    && (|Flatten(g)| < MAX_PARAMS ==> p.cur == v && !p.ignoring)
    && (|Flatten(g)| >= MAX_PARAMS ==> Size(p) == MAX_PARAMS)
  }

  lemma {:induction false} TruncateSize(groups: seq<seq<nat>>, n: nat)
    ensures |Flatten(Truncate(groups, n))| == Min(n, |Flatten(groups)|)
    decreases |groups|
  {
    if groups != [] && n > 0 {
      if |groups[0]| <= n {
        TruncateSize(groups[1..], n - |groups[0]|);
        assert ([groups[0]] + Truncate(groups[1..], n - |groups[0]|))[1..] == Truncate(groups[1..], n - |groups[0]|);
      } else {
        var cut: seq<seq<nat>> := [groups[0][..n]];
        assert cut[1..] == [];
      }
    }
  }

  /** Storing a value and truncating commute; so do opening a group and truncating. */
  lemma TruncateStored(g: seq<seq<nat>>, v: nat)
    requires g != []
    ensures var g1 := AppendLast(g, v);
            && |Flatten(g1)| == |Flatten(g)| + 1
            && (if |Flatten(g)| < MAX_PARAMS
                then Truncate(g, MAX_PARAMS) == g && Truncate(g1, MAX_PARAMS) == g1
                else Truncate(g1, MAX_PARAMS) == Truncate(g, MAX_PARAMS))
  {
    FlattenAppendLast(g, v);
    if |Flatten(g)| < MAX_PARAMS {
      TruncateAll(g, MAX_PARAMS);
      TruncateFits(AppendLast(g, v), MAX_PARAMS);
    } else {
      TruncateAppendLast(g, v, MAX_PARAMS);
    }
  }

  lemma TruncateOpened(g1: seq<seq<nat>>)
    ensures |Flatten(g1 + [[]])| == |Flatten(g1)|
    ensures Truncate(g1 + [[]], MAX_PARAMS)
         == if |Flatten(g1)| < MAX_PARAMS then g1 + [[]] else Truncate(g1, MAX_PARAMS)
  {
    FlattenSnoc(g1, []);
    TruncateConcat(g1, [[]], MAX_PARAMS);
    var none: seq<seq<nat>> := [[]];
    assert none[1..] == [];
    assert |Flatten(g1)| < MAX_PARAMS ==> Truncate(none, MAX_PARAMS - |Flatten(g1)|) == none;
  }

  lemma FeedHolds(p: Params, text: string, c: char)
    requires Holds(p, text)
    ensures Holds(Feed(p, c), text + [c])
  {
    var (g, v) := Reading(text);
    ReadingSnoc(text, c);
    TruncateSize(g, MAX_PARAMS);
    if c == ';' || c == ':' {
      var g1 := AppendLast(g, v);
      TruncateStored(g, v);
      TruncateSize(g1, MAX_PARAMS);
      TruncateOpened(g1);
    }
  }

  lemma {:induction false} TruncateFits(groups: seq<seq<nat>>, n: nat)
    requires |Flatten(groups)| <= n && (groups != [] ==> groups[|groups| - 1] != [])
    ensures Truncate(groups, n) == groups
    decreases |groups|
  {
    if groups != [] {
      var k := |groups| - 1;
      assert groups == groups[..k] + [groups[k]];
      FlattenSnoc(groups[..k], groups[k]);
      if k > 0 { TruncateFits(groups[1..], n - |groups[0]|); }
    }
  }

  lemma {:induction false} FeedAllHolds(p: Params, done: string, text: string)
    requires Holds(p, done)
    ensures Holds(FeedAll(p, text), done + text)
    decreases |text|
  {
    if text == "" {
      assert done + text == done;
    } else {
      FeedHolds(p, done, text[0]);
      assert done + [text[0]] + text[1..] == done + text;
      FeedAllHolds(Feed(p, text[0]), done + [text[0]], text[1..]);
    }
  }

  /** For every parameter string, what the dispatch sees is the nested split, cut to
      its first 32 values; with at most 32 values it is the nested split itself. */
  lemma ParseIsNestedSplit(text: string)
    ensures Parse(text) == Truncate(Nested(text), MAX_PARAMS)
    ensures |Flatten(Nested(text))| <= MAX_PARAMS ==> Parse(text) == Nested(text)
  {
    StartHolds();
    FeedAllHolds(CLEARED, "", text);
    assert "" + text == text;
    var p := FeedAll(CLEARED, text);
    var (g, v) := Reading(text);
    ReadingFinishes(text);
    TruncateStored(g, v);
    TruncateSize(g, MAX_PARAMS);
    if |Flatten(AppendLast(g, v))| <= MAX_PARAMS { assert |Flatten(g)| < MAX_PARAMS; }
  }

  lemma StartHolds()
    ensures Holds(CLEARED, "")
  {
    var none: seq<string> := [""];
    assert SplitOn("", ';') == none && SplitOn("", ':') == none;
    assert none[..0] == [] && Groups([]) == [] && Values([]) == [];
    var start: seq<seq<nat>> := [[]];
    assert Groups(SplitOn("", ';')[..0]) + [Values(SplitOn("", ':')[..0])] == start by {
      assert SplitOn("", ';')[..0] == [] && SplitOn("", ':')[..0] == [];
    }
    assert none[0] == "" && Reading("") == (start, 0);
    assert start[1..] == [] && Truncate(start, MAX_PARAMS) == start;
  }
}
