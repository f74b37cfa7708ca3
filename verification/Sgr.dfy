/** Select Graphic Rendition (section 8.3.117 of ECMA-48): applying a parameter list
    to a style, printing a style as one, and when the two undo each other. */
module Sgr {
  import opened Prelude
  import opened CsiParams

  /** `kind` 0 is the default colour, 1 a basic index, 2 a 256-colour index, 3 RGB. */
  datatype Color = Color(kind: nat, val: nat, r: nat, g: nat, b: nat)

  const DEFAULT_COLOR := Color(0, 0, 0, 0, 0)

  function Basic(v: nat): Color { Color(1, v, 0, 0, 0) }

  function Indexed(v: nat): Color { Color(2, ClampByte(v), 0, 0, 0) }

  function Rgb(r: nat, g: nat, b: nat): Color { Color(3, 0, ClampByte(r), ClampByte(g), ClampByte(b)) }

  function ClampByte(v: nat): nat { Min(v, 255) }

  /** The attributes that are on or off. */
  datatype Attrs = Attrs(
    bold: bool, dim: bool, italic: bool, underline: bool, doubleUnderline: bool, overline: bool,
    blink: bool, inverse: bool, strikethrough: bool, hidden: bool)

  datatype Style = Style(fg: Color, bg: Color, underlineColor: Color, attrs: Attrs)

  const NO_ATTRS := Attrs(false, false, false, false, false, false, false, false, false, false)

  const PLAIN := Style(DEFAULT_COLOR, DEFAULT_COLOR, DEFAULT_COLOR, NO_ATTRS)

  // --- applying parameters -------------------------------------------------------------

  /** The attribute a parameter group other than an extended colour selects. */
  function Attribute(st: Style, g: seq<nat>): Style
    requires g != []
  {
    if IsHue(g[0]) then Hue(st, g[0]) else Toggle(st, g)
  }

  predicate IsHue(p: nat) { 30 <= p <= 49 || p == 59 || 90 <= p <= 107 }

  /** Basic, bright and default colours. */
  function Hue(st: Style, p: nat): Style {
    if 30 <= p <= 37 then st.(fg := Basic(p - 30))
    else if p == 39 then st.(fg := DEFAULT_COLOR)
    else if 40 <= p <= 47 then st.(bg := Basic(p - 40))
    else if p == 49 then st.(bg := DEFAULT_COLOR)
    else if p == 59 then st.(underlineColor := DEFAULT_COLOR)
    else if 90 <= p <= 97 then st.(fg := Basic(p - 90 + 8))
    else if 100 <= p <= 107 then st.(bg := Basic(p - 100 + 8))
    else st
  }

  /** A reset, or an attribute switched on or off. */
  function Toggle(st: Style, g: seq<nat>): Style
    requires g != []
  {
    if g[0] == 0 then PLAIN else st.(attrs := Switch(st.attrs, g))
  }

  function Switch(a: Attrs, g: seq<nat>): Attrs
    requires g != []
  {
    match g[0]
    case 1 => a.(bold := true)
    case 2 => a.(dim := true)
    case 3 => a.(italic := true)
    case 4 =>
      if |g| < 2 then a.(underline := true)
      else if g[1] == 0 then a.(underline := false, doubleUnderline := false)
      else if g[1] == 2 then a.(doubleUnderline := true, underline := false)
      else a.(underline := true, doubleUnderline := false)
    case 5 => a.(blink := true)
    case 6 => a.(blink := true)
    case 7 => a.(inverse := true)
    case 8 => a.(hidden := true)
    case 9 => a.(strikethrough := true)
    case 21 => a.(doubleUnderline := true, underline := false)
    case 22 => a.(bold := false, dim := false)
    case 23 => a.(italic := false)
    case 24 => a.(underline := false, doubleUnderline := false)
    case 25 => a.(blink := false)
    case 27 => a.(inverse := false)
    case 28 => a.(hidden := false)
    case 29 => a.(strikethrough := false)
    case 53 => a.(overline := true)
    case 55 => a.(overline := false)
    case _ => a
  }

  predicate IsExtended(p: nat) { p == 38 || p == 48 || p == 58 }

  /** Extended colour in the colon form, the whole of it in one group. */
  function ColonColor(g: seq<nat>, c: Color): Color
    requires |g| >= 3
  {
    if g[1] == 5 then Indexed(g[2])
    else if g[1] == 2 && |g| >= 6 then Rgb(g[3], g[4], g[5])
    else if g[1] == 2 && |g| == 5 then Rgb(g[2], g[3], g[4])
    else if g[1] == 2 && |g| == 4 then Rgb(g[2], g[3], 0)
    else c
  }

  /** Extended colour from the group at the head of `gs` on, and how many groups it
      takes: one in the colon form, up to five in the semicolon form. */
  function Extended(gs: seq<seq<nat>>, c: Color): (r: (Color, nat))
    requires gs != [] && gs[0] != []
    ensures 1 <= r.1 <= |gs|
  {
    if |gs[0]| >= 3 then (ColonColor(gs[0], c), 1)
    else if |gs| < 2 then (c, 1)
    else if gs[1] == [] then (c, 2)
    else if gs[1][0] == 5 && |gs| > 2 then (if gs[2] != [] then Indexed(gs[2][0]) else c, 3)
    else if gs[1][0] == 2 && |gs| > 4 then
      (if gs[2] != [] && gs[3] != [] && gs[4] != [] then Rgb(gs[2][0], gs[3][0], gs[4][0]) else c, 5)
    else (c, 2)
  }

  function SetColor(st: Style, p: nat, c: Color): Style {
    if p == 38 then st.(fg := c) else if p == 48 then st.(bg := c) else st.(underlineColor := c)
  }

  function ColorOf(st: Style, p: nat): Color {
    if p == 38 then st.fg else if p == 48 then st.bg else st.underlineColor
  }

  /** The style after one step of the loop, and the groups that step consumed. */
  function SgrStep(st: Style, gs: seq<seq<nat>>): (r: (Style, nat))
    requires gs != []
    ensures 1 <= r.1 <= |gs|
  {
    if gs[0] == [] then (st, 1)
    else if IsExtended(gs[0][0]) then
      var (c, n) := Extended(gs, ColorOf(st, gs[0][0]));
      (SetColor(st, gs[0][0], c), n)
    else (Attribute(st, gs[0]), 1)
  }

  function ApplySgr(st: Style, gs: seq<seq<nat>>): Style
    decreases |gs|
  {
    if gs == [] then st
    else
      var (st1, n) := SgrStep(st, gs);
      ApplySgr(st1, gs[n..])
  }

  class Pen {
    var style: Style

    constructor ()
      ensures style == PLAIN
    {
      style := PLAIN;
    }

    /** The indexed loop over parameter groups. */
    method Apply(groups: seq<seq<nat>>)
      modifies this
      ensures style == ApplySgr(old(style), groups)
    {
      if groups == [[0]] {
        style := PLAIN;
        assert groups[1..] == [];
        return;
      }
      var i := 0;
      while i < |groups|
        invariant i <= |groups|
        invariant ApplySgr(old(style), groups) == ApplySgr(style, groups[i..])
      {
        ghost var st := style;
        var n := Step(groups, i);
        ApplyRest(st, groups, i);
        i := i + n;
      }
    }

    /** One turn of the loop: what the group at `i` does, and the groups it takes. */
    method Step(groups: seq<seq<nat>>, i: nat) returns (n: nat)
      requires i < |groups|
      modifies this
      ensures (style, n) == SgrStep(old(style), groups[i..])
    {
      var g := groups[i];
      assert groups[i..][0] == g;
      n := 1;
      if g != [] && IsExtended(g[0]) {
        var c, taken := ParseExtColorGroup(groups, i, ColorOf(style, g[0]));
        style := SetColor(style, g[0], c);
        n := taken;
      } else if g != [] {
        style := Attribute(style, g);
      }
    }
  }

  lemma ApplyRest(st: Style, groups: seq<seq<nat>>, i: nat)
    requires i < |groups|
    ensures
      var (st1, n) := SgrStep(st, groups[i..]);
      i + n <= |groups| && ApplySgr(st, groups[i..]) == ApplySgr(st1, groups[i + n..])
  {
    var n := SgrStep(st, groups[i..]).1;
    assert groups[i..][n..] == groups[i + n..];
  }

  method ParseExtColorGroup(groups: seq<seq<nat>>, i: nat, c: Color) returns (color: Color, taken: nat)
    requires i < |groups| && groups[i] != []
    ensures (color, taken) == Extended(groups[i..], c)
  {
    color, taken := c, 1;
    var g := groups[i];
    if |g| >= 3 {
      color := ColonColor(g, c);
      return;
    }
    if i + 1 >= |groups| { return; }
    taken := 2;
    var mode := groups[i + 1];
    if mode == [] { return; }
    if mode[0] == 5 && i + 2 < |groups| {
      if groups[i + 2] != [] { color := Indexed(groups[i + 2][0]); }
      taken := 3;
    } else if mode[0] == 2 && i + 4 < |groups| {
      if groups[i + 2] != [] && groups[i + 3] != [] && groups[i + 4] != [] {
        color := Rgb(groups[i + 2][0], groups[i + 3][0], groups[i + 4][0]);
      }
      taken := 5;
    }
  }

  // --- printing a style --------------------------------------------------------------------

  function Flag(on: bool, p: nat): seq<nat> { if on then [p] else [] }

  /** The semicolon form of a 256-colour or RGB colour. */
  function ExtendedParams(p: nat, c: Color): seq<nat> {
    if c.kind == 2 then [p, 5, c.val] else [p, 2, c.r, c.g, c.b]
  }

  function ColorParams(c: Color, base: nat): seq<nat> {
    if c.kind == 1 then
      if c.val < 8 then [base + c.val] else [base + 60 + c.val - 8]
    else if c.kind == 2 then [base + 8, 5, c.val]
    else if c.kind == 3 then [base + 8, 2, c.r, c.g, c.b]
    else []
  }

  function UnderlineColorParams(c: Color): seq<nat> {
    if c.kind == 2 then [58, 5, c.val]
    else if c.kind == 3 then [58, 2, c.r, c.g, c.b]
    else []
  }

  /** The selected attributes other than colour, in printing order, before `rest`. */
  function FlagParams(a: Attrs, rest: seq<nat>): seq<nat> { WeightParams(a, EffectParams(a, rest)) }

  function WeightParams(a: Attrs, rest: seq<nat>): seq<nat> {
    Flag(a.bold, 1) + (Flag(a.dim, 2) + (Flag(a.italic, 3) + (Flag(a.underline, 4)
    + (Flag(a.doubleUnderline, 21) + rest))))
  }

  function EffectParams(a: Attrs, rest: seq<nat>): seq<nat> {
    Flag(a.blink, 5) + (Flag(a.inverse, 7) + (Flag(a.hidden, 8) + (Flag(a.strikethrough, 9)
    + (Flag(a.overline, 53) + rest))))
  }

  function AllColorParams(st: Style): seq<nat> {
    ColorParams(st.fg, 30) + (ColorParams(st.bg, 40) + UnderlineColorParams(st.underlineColor))
  }

  function SgrParams(st: Style): seq<nat> { Flag(true, 0) + FlagParams(st.attrs, AllColorParams(st)) }

  function Decimal(n: nat): string {
    if n < 10 then [(('0' as int) + n) as char] else Decimal(n / 10) + [(('0' as int) + n % 10) as char]
  }

  /** Decimal numbers joined by semicolons. */
  function Join(ps: seq<nat>): string
    requires ps != []
  {
    if |ps| == 1 then Decimal(ps[0]) else Decimal(ps[0]) + ";" + Join(ps[1..])
  }

  function SgrString(st: Style): string { Join(SgrParams(st)) }

  // --- well-formed styles: all that any parameter list can reach --------------------------

  predicate ColorOk(c: Color) {
    || c == DEFAULT_COLOR
    || (c.kind == 1 && c.val < 16 && c.r == 0 && c.g == 0 && c.b == 0)
    || (c.kind == 2 && c.val < 256 && c.r == 0 && c.g == 0 && c.b == 0)
    || (c.kind == 3 && c.val == 0 && c.r < 256 && c.g < 256 && c.b < 256)
  }

  predicate StyleOk(st: Style) {
    ColorOk(st.fg) && ColorOk(st.bg) && ColorOk(st.underlineColor) && st.underlineColor.kind != 1
  }

  lemma ExtendedKeepsOk(gs: seq<seq<nat>>, c: Color)
    requires gs != [] && gs[0] != [] && ColorOk(c)
    ensures ColorOk(Extended(gs, c).0)
    ensures c.kind != 1 ==> Extended(gs, c).0.kind != 1
  {
  }

  lemma HueKeepsOk(st: Style, p: nat)
    requires StyleOk(st)
    ensures StyleOk(Hue(st, p))
  {
  }

  lemma SameColorsOk(st: Style, st1: Style)
    requires StyleOk(st) && st1.fg == st.fg && st1.bg == st.bg && st1.underlineColor == st.underlineColor
    ensures StyleOk(st1)
  {
  }

  lemma SgrStepKeepsOk(st: Style, gs: seq<seq<nat>>)
    requires StyleOk(st) && gs != []
    ensures StyleOk(SgrStep(st, gs).0)
  {
    if gs[0] != [] {
      var p := gs[0][0];
      if IsExtended(p) {
        ExtendedKeepsOk(gs, ColorOf(st, p));
      } else if IsHue(p) {
        HueKeepsOk(st, p);
      } else if p != 0 {
        SameColorsOk(st, Toggle(st, gs[0]));
      }
    }
  }

  /** Every style reachable from a well-formed one by any parameter list is well formed. */
  lemma {:induction false} ReachableStylesOk(st: Style, gs: seq<seq<nat>>)
    requires StyleOk(st)
    ensures StyleOk(ApplySgr(st, gs))
    decreases |gs|
  {
    if gs != [] {
      SgrStepKeepsOk(st, gs);
      ReachableStylesOk(SgrStep(st, gs).0, gs[SgrStep(st, gs).1..]);
    }
  }

  // --- the parser reads back what is printed ----------------------------------------------

  function Singles(ps: seq<nat>): (gs: seq<seq<nat>>)
    ensures |gs| == |ps|
  {
    if ps == [] then [] else [[ps[0]]] + Singles(ps[1..])
  }

  lemma {:induction false} FeedConcat(p: Params, a: string, b: string)
    requires p.groups != []
    ensures FeedAll(p, a + b) == FeedAll(FeedAll(p, a), b)
    decreases |a|
  {
    if a == "" {
      assert a + b == b;
    } else {
      assert (a + b)[1..] == a[1..] + b;
      FeedConcat(Feed(p, a[0]), a[1..], b);
    }
  }

  /** A printed number is read back into the value slot. */
  lemma {:induction false} FeedDecimal(p: Params, n: nat)
    requires p.groups != [] && !p.ignoring && p.cur == 0 && n <= MAX_VALUE
    ensures FeedAll(p, Decimal(n)) == p.(cur := n)
  {
    if n < 10 {
      var d := [(('0' as int) + n) as char];
      assert d[1..] == "";
      assert FeedAll(p, d) == Feed(p, d[0]);
    } else {
      FeedDecimal(p, n / 10);
      var d := [(('0' as int) + n % 10) as char];
      FeedConcat(p, Decimal(n / 10), d);
      assert d[1..] == "";
      assert FeedAll(p.(cur := n / 10), d) == Feed(p.(cur := n / 10), d[0]);
    }
  }

  lemma {:induction false} FlattenSingles(ps: seq<nat>)
    ensures Flatten(Singles(ps)) == ps
  {
    if ps != [] { FlattenSingles(ps[1..]); }
  }

  /** Reading one number into the group just opened. */
  lemma FeedNumber(done: seq<seq<nat>>, n: nat)
    requires |Flatten(done)| < MAX_PARAMS && n <= MAX_VALUE
    ensures var q := FeedAll(Params(done + [[]], 0, false), Decimal(n));
            && q == Params(done + [[]], n, false) && Size(q) == |Flatten(done)|
            && AppendLast(q.groups, n) == done + [[n]]
  {
    FlattenSnoc(done, []);
    assert (done + [[]])[..|done|] == done;
    assert [] + [n] == [n];
    FeedDecimal(Params(done + [[]], 0, false), n);
  }

  /** Printed parameters are read back as one group each. */
  lemma {:induction false} FeedJoin(done: seq<seq<nat>>, ps: seq<nat>)
    requires ps != [] && |Flatten(done)| + |ps| <= MAX_PARAMS
    requires forall i :: 0 <= i < |ps| ==> ps[i] <= MAX_VALUE
    ensures Finalize(FeedAll(Params(done + [[]], 0, false), Join(ps))).groups == done + Singles(ps)
    decreases |ps|
  {
    if |ps| == 1 {
      LastNumber(done, ps);
    } else {
      FlattenSnoc(done, [ps[0]]);
      FeedSeparated(done, ps);
      FeedJoin(done + [[ps[0]]], ps[1..]);
      SinglesGoOn(done, ps);
    }
  }

  lemma LastNumber(done: seq<seq<nat>>, ps: seq<nat>)
    requires |ps| == 1 && |Flatten(done)| < MAX_PARAMS && ps[0] <= MAX_VALUE
    ensures Finalize(FeedAll(Params(done + [[]], 0, false), Join(ps))).groups == done + Singles(ps)
  {
    FeedNumber(done, ps[0]);
    assert Singles(ps) == [[ps[0]]];
  }

  lemma SinglesGoOn(done: seq<seq<nat>>, ps: seq<nat>)
    requires ps != []
    ensures done + [[ps[0]]] + Singles(ps[1..]) == done + Singles(ps)
  {}

  lemma FeedSeparated(done: seq<seq<nat>>, ps: seq<nat>)
    requires |ps| > 1 && |Flatten(done)| + |ps| <= MAX_PARAMS && ps[0] <= MAX_VALUE
    ensures FeedAll(Params(done + [[]], 0, false), Join(ps))
         == FeedAll(Params(done + [[ps[0]]] + [[]], 0, false), Join(ps[1..]))
  {
    var p, more := Params(done + [[]], 0, false), Join(ps[1..]);
    FeedNumber(done, ps[0]);
    FeedConcat(p, Decimal(ps[0]), ";" + more);
    assert Decimal(ps[0]) + (";" + more) == Join(ps);
    assert (";" + more)[1..] == more;
  }

  lemma ParseJoin(ps: seq<nat>)
    requires 0 < |ps| <= MAX_PARAMS && forall i :: 0 <= i < |ps| ==> ps[i] <= MAX_VALUE
    ensures Parse(Join(ps)) == Singles(ps)
  {
    FeedJoin([], ps);
    assert [] + [[]] == CLEARED.groups;
    assert [] + Singles(ps) == Singles(ps);
  }

  // --- applying what is printed --------------------------------------------------------------

  lemma {:induction false} SinglesConcat(a: seq<nat>, b: seq<nat>)
    ensures Singles(a + b) == Singles(a) + Singles(b)
    decreases |a|
  {
    if a == [] {
      assert a + b == b;
    } else {
      assert (a + b)[1..] == a[1..] + b;
      SinglesConcat(a[1..], b);
    }
  }

  /** One attribute parameter, then the rest. */
  lemma ApplyFlag(st: Style, p: nat, rest: seq<nat>)
    requires !IsExtended(p)
    ensures ApplySgr(st, Singles([p] + rest)) == ApplySgr(Attribute(st, [p]), Singles(rest))
  {
    assert ([p] + rest)[1..] == rest;
    assert Singles([p] + rest)[1..] == Singles(rest);
  }

  /** The semicolon form of an extended colour, then the rest. */
  lemma ApplyExtended(st: Style, p: nat, c: Color, rest: seq<nat>)
    requires IsExtended(p) && ColorOk(c) && c.kind >= 2
    ensures ApplySgr(st, Singles(ExtendedParams(p, c) + rest)) == ApplySgr(SetColor(st, p, c), Singles(rest))
  {
    var ps := ExtendedParams(p, c);
    SinglesConcat(ps, rest);
    SinglesAt(ps);
    var gs := Singles(ps) + Singles(rest);
    assert gs[0] == [p] && gs[1] == [ps[1]] && gs[2] == [ps[2]];
    assert c.kind == 3 ==> gs[3] == [ps[3]] && gs[4] == [ps[4]];
    assert SgrStep(st, gs) == (SetColor(st, p, c), |ps|);
    assert gs[|ps|..] == Singles(rest);
  }

  lemma {:induction false} SinglesAt(ps: seq<nat>)
    ensures forall i :: 0 <= i < |ps| ==> Singles(ps)[i] == [ps[i]]
  {
    if ps != [] {
      SinglesAt(ps[1..]);
      forall i | 0 <= i < |ps| ensures Singles(ps)[i] == [ps[i]] {
        if i > 0 { assert Singles(ps)[i] == Singles(ps[1..])[i - 1]; }
      }
    }
  }

  /** All the printed form needs to know of an applier of flat parameter lists. */
  ghost predicate Lawful(f: (Style, seq<nat>) -> Style) {
    && (forall s, rest, p {:trigger f(s, [p] + rest)} :: !IsExtended(p) ==> f(s, [p] + rest) == f(Attribute(s, [p]), rest))
    && (forall s, rest, p, c {:trigger f(s, ExtendedParams(p, c) + rest)} ::
          IsExtended(p) && ColorOk(c) && c.kind >= 2 ==> f(s, ExtendedParams(p, c) + rest) == f(SetColor(s, p, c), rest))
    && (forall s :: f(s, []) == s)
  }

  lemma FlagLaw(f: (Style, seq<nat>) -> Style, s: Style, on: bool, p: nat, rest: seq<nat>)
    requires Lawful(f) && !IsExtended(p)
    ensures f(s, Flag(on, p) + rest) == f(if on then Attribute(s, [p]) else s, rest)
  {
    assert on ==> f(s, [p] + rest) == f(Attribute(s, [p]), rest);
    assert [] + rest == rest;
  }

  /** A printed colour sets that colour, whatever follows. */
  lemma ColorLaw(f: (Style, seq<nat>) -> Style, s: Style, c: Color, base: nat, rest: seq<nat>)
    requires Lawful(f) && ColorOk(c) && (base == 30 || base == 40) && ColorOf(s, base + 8) == DEFAULT_COLOR
    ensures f(s, ColorParams(c, base) + rest) == f(SetColor(s, base + 8, c), rest)
  {
    if c.kind == 0 {
      assert [] + rest == rest;
    } else if c.kind == 1 {
      FlagLaw(f, s, true, ColorParams(c, base)[0], rest);
    } else {
      assert ColorParams(c, base) == ExtendedParams(base + 8, c);
      assert f(s, ExtendedParams(base + 8, c) + rest) == f(SetColor(s, base + 8, c), rest);
    }
  }

  /** A pen with default colours. */
  function Uncolored(a: Attrs): Style { Style(DEFAULT_COLOR, DEFAULT_COLOR, DEFAULT_COLOR, a) }

  lemma SwitchLaw(f: (Style, seq<nat>) -> Style, a: Attrs, on: bool, p: nat, rest: seq<nat>)
    requires Lawful(f) && !IsExtended(p) && !IsHue(p) && p != 0
    ensures f(Uncolored(a), Flag(on, p) + rest) == f(Uncolored(if on then Switch(a, [p]) else a), rest)
  {
    FlagLaw(f, Uncolored(a), on, p, rest);
  }

  /** The bold, dim, italic and underline half of `a`; double underline wins over single. */
  function Weights(a: Attrs): Attrs {
    Attrs(a.bold, a.dim, a.italic, a.underline && !a.doubleUnderline, a.doubleUnderline, false, false, false, false, false)
  }

  function Shown(a: Attrs): Attrs { a.(underline := a.underline && !a.doubleUnderline) }

  lemma WeightsLaw(f: (Style, seq<nat>) -> Style, a: Attrs, rest: seq<nat>)
    requires Lawful(f)
    ensures f(PLAIN, WeightParams(a, rest)) == f(Uncolored(Weights(a)), rest)
  {
    var t4 := Flag(a.doubleUnderline, 21) + rest;
    var t3 := Flag(a.underline, 4) + t4;
    var t2 := Flag(a.italic, 3) + t3;
    var t1 := Flag(a.dim, 2) + t2;
    var a1 := NO_ATTRS.(bold := a.bold);
    var a2 := a1.(dim := a.dim);
    var a3 := a2.(italic := a.italic);
    var a4 := a3.(underline := a.underline);
    SwitchLaw(f, NO_ATTRS, a.bold, 1, t1);
    SwitchLaw(f, a1, a.dim, 2, t2);
    SwitchLaw(f, a2, a.italic, 3, t3);
    SwitchLaw(f, a3, a.underline, 4, t4);
    SwitchLaw(f, a4, a.doubleUnderline, 21, rest);
  }

  /** ... and with blink and inverse as well. */
  function Lit(a: Attrs): Attrs {
    Attrs(a.bold, a.dim, a.italic, a.underline && !a.doubleUnderline, a.doubleUnderline, false,
          a.blink, a.inverse, false, false)
  }

  lemma LitLaw(f: (Style, seq<nat>) -> Style, a: Attrs, rest: seq<nat>)
    requires Lawful(f)
    ensures f(Uncolored(Weights(a)), Flag(a.blink, 5) + (Flag(a.inverse, 7) + rest)) == f(Uncolored(Lit(a)), rest)
  {
    var a1 := Attrs(a.bold, a.dim, a.italic, a.underline && !a.doubleUnderline, a.doubleUnderline, false,
                    a.blink, false, false, false);
    SwitchLaw(f, Weights(a), a.blink, 5, Flag(a.inverse, 7) + rest);
    SwitchLaw(f, a1, a.inverse, 7, rest);
  }

  /** ... and with concealment as well. */
  function Veiled(a: Attrs): Attrs {
    Attrs(a.bold, a.dim, a.italic, a.underline && !a.doubleUnderline, a.doubleUnderline, false,
          a.blink, a.inverse, false, a.hidden)
  }

  lemma VeiledLaw(f: (Style, seq<nat>) -> Style, a: Attrs, rest: seq<nat>)
    requires Lawful(f)
    ensures f(Uncolored(Lit(a)), Flag(a.hidden, 8) + rest) == f(Uncolored(Veiled(a)), rest)
  {
    SwitchLaw(f, Lit(a), a.hidden, 8, rest);
  }

  lemma LinesLaw(f: (Style, seq<nat>) -> Style, a: Attrs, rest: seq<nat>)
    requires Lawful(f)
    ensures f(Uncolored(Veiled(a)), Flag(a.strikethrough, 9) + (Flag(a.overline, 53) + rest)) == f(Uncolored(Shown(a)), rest)
  {
    var a4 := Attrs(a.bold, a.dim, a.italic, a.underline && !a.doubleUnderline, a.doubleUnderline, false,
                    a.blink, a.inverse, a.strikethrough, a.hidden);
    SwitchLaw(f, Veiled(a), a.strikethrough, 9, Flag(a.overline, 53) + rest);
    SwitchLaw(f, a4, a.overline, 53, rest);
  }

  lemma EffectsLaw(f: (Style, seq<nat>) -> Style, a: Attrs, rest: seq<nat>)
    requires Lawful(f)
    ensures f(Uncolored(Weights(a)), EffectParams(a, rest)) == f(Uncolored(Shown(a)), rest)
  {
    LitLaw(f, a, Flag(a.hidden, 8) + (Flag(a.strikethrough, 9) + (Flag(a.overline, 53) + rest)));
    VeiledLaw(f, a, Flag(a.strikethrough, 9) + (Flag(a.overline, 53) + rest));
    LinesLaw(f, a, rest);
  }

  lemma UnderlineColorLaw(f: (Style, seq<nat>) -> Style, s: Style, c: Color)
    requires Lawful(f) && ColorOk(c) && c.kind != 1 && s.underlineColor == DEFAULT_COLOR
    ensures f(s, UnderlineColorParams(c)) == s.(underlineColor := c)
  {
    if c.kind == 0 {
      assert f(s, []) == s;
    } else {
      var none: seq<nat> := [];
      assert f(s, ExtendedParams(58, c) + none) == f(SetColor(s, 58, c), none);
      assert ExtendedParams(58, c) + none == UnderlineColorParams(c);
    }
  }

  lemma ColorsLaw(f: (Style, seq<nat>) -> Style, a: Attrs, st: Style)
    requires Lawful(f) && StyleOk(st)
    ensures f(Uncolored(a), AllColorParams(st)) == st.(attrs := a)
  {
    var u := UnderlineColorParams(st.underlineColor);
    var s1 := Uncolored(a).(fg := st.fg);
    ColorLaw(f, Uncolored(a), st.fg, 30, ColorParams(st.bg, 40) + u);
    ColorLaw(f, s1, st.bg, 40, u);
    UnderlineColorLaw(f, s1.(bg := st.bg), st.underlineColor);
  }

  /** Applying a printed style gives that style with a single underline hidden by a double one. */
  lemma PrintedLaw(f: (Style, seq<nat>) -> Style, prior: Style, st: Style)
    requires Lawful(f) && StyleOk(st)
    ensures f(prior, SgrParams(st)) == st.(attrs := Shown(st.attrs))
  {
    var colors := AllColorParams(st);
    FlagLaw(f, prior, true, 0, FlagParams(st.attrs, colors));
    WeightsLaw(f, st.attrs, EffectParams(st.attrs, colors));
    EffectsLaw(f, st.attrs, colors);
    ColorsLaw(f, Shown(st.attrs), st);
  }

  lemma ApplyPrinted(prior: Style, st: Style)
    requires StyleOk(st)
    ensures ApplySgr(prior, Singles(SgrParams(st))) == st.(attrs := Shown(st.attrs))
  {
    var f := (s: Style, ps: seq<nat>) => ApplySgr(s, Singles(ps));
    assert Lawful(f) by { ApplySgrLawful(f); }
    PrintedLaw(f, prior, st);
  }

  lemma ApplySgrLawful(f: (Style, seq<nat>) -> Style)
    requires forall s, ps :: f(s, ps) == ApplySgr(s, Singles(ps))
    ensures Lawful(f)
  {
    forall s: Style, rest: seq<nat>, p: nat | !IsExtended(p) ensures f(s, [p] + rest) == f(Attribute(s, [p]), rest) {
      ApplyFlag(s, p, rest);
    }
    forall s: Style, rest: seq<nat>, p: nat, c: Color | IsExtended(p) && ColorOk(c) && c.kind >= 2
      ensures f(s, ExtendedParams(p, c) + rest) == f(SetColor(s, p, c), rest)
    {
      ApplyExtended(s, p, c, rest);
    }
  }

  predicate ByteParams(ps: seq<nat>, most: nat) {
    |ps| <= most && forall i :: 0 <= i < |ps| ==> ps[i] <= 255
  }

  lemma FlagFits(on: bool, p: nat, rest: seq<nat>, most: nat)
    requires p <= 255 && ByteParams(rest, most)
    ensures ByteParams(Flag(on, p) + rest, most + if on then 1 else 0)
  {
  }

  lemma EffectsFit(a: Attrs, rest: seq<nat>, most: nat)
    requires ByteParams(rest, most)
    ensures ByteParams(EffectParams(a, rest), most + 5)
  {
    var t4 := Flag(a.overline, 53) + rest;
    var t3 := Flag(a.strikethrough, 9) + t4;
    var t2 := Flag(a.hidden, 8) + t3;
    FlagFits(a.overline, 53, rest, most);
    FlagFits(a.strikethrough, 9, t4, most + 1);
    FlagFits(a.hidden, 8, t3, most + 2);
    FlagFits(a.inverse, 7, t2, most + 3);
    FlagFits(a.blink, 5, Flag(a.inverse, 7) + t2, most + 4);
  }

  function Underlines(a: Attrs): nat {
    (if a.underline then 1 else 0) + (if a.doubleUnderline then 1 else 0)
  }

  lemma WeightsFit(a: Attrs, rest: seq<nat>, most: nat)
    requires ByteParams(rest, most)
    ensures ByteParams(WeightParams(a, rest), most + 3 + Underlines(a))
  {
    var t4 := Flag(a.doubleUnderline, 21) + rest;
    var t3 := Flag(a.underline, 4) + t4;
    var t2 := Flag(a.italic, 3) + t3;
    FlagFits(a.doubleUnderline, 21, rest, most);
    var double := if a.doubleUnderline then 1 else 0;
    FlagFits(a.underline, 4, t4, most + double);
    FlagFits(a.italic, 3, t3, most + Underlines(a));
    FlagFits(a.dim, 2, t2, most + Underlines(a) + 1);
    FlagFits(a.bold, 1, Flag(a.dim, 2) + t2, most + Underlines(a) + 2);
  }

  lemma ColorsFit(st: Style)
    requires StyleOk(st)
    ensures ByteParams(AllColorParams(st), 15)
  {
    assert ByteParams(ColorParams(st.fg, 30), 5);
    assert ByteParams(ColorParams(st.bg, 40), 5);
    assert ByteParams(UnderlineColorParams(st.underlineColor), 5);
  }

  /** At most 25 parameters, one more for a style with both underlines. */
  lemma ParamsFit(st: Style)
    requires StyleOk(st)
    ensures SgrParams(st) != [] && ByteParams(SgrParams(st), 24 + Underlines(st.attrs))
  {
    var colors := AllColorParams(st);
    ColorsFit(st);
    EffectsFit(st.attrs, colors, 15);
    WeightsFit(st.attrs, EffectParams(st.attrs, colors), 20);
    FlagFits(true, 0, FlagParams(st.attrs, colors), 23 + Underlines(st.attrs));
  }

  /** The printer and the parser undo each other, from any prior style, exactly for
      the styles that do not carry both underline flags; the printed parameters
      always fit the parser's slots. */
  lemma PrintedStyleReadsBack(prior: Style, st: Style)
    requires StyleOk(st)
    ensures |SgrParams(st)| <= MAX_PARAMS
    ensures ApplySgr(prior, Parse(SgrString(st))) == st <==> !(st.attrs.underline && st.attrs.doubleUnderline)
  {
    ParamsFit(st);
    ParseJoin(SgrParams(st));
    ApplyPrinted(prior, st);
  }

  /** The excluded state is reachable: double underline, then plain underline. */
  lemma BothUnderlinesReachable()
    ensures var st := ApplySgr(PLAIN, Parse("21;4")); StyleOk(st) && st.attrs.underline && st.attrs.doubleUnderline
  {
    ParseJoin([21, 4]);
    DoubleThenSingleText();
    DoubleThenSingle();
  }

  lemma DoubleThenSingleText()
    ensures Join([21, 4]) == "21;4" && Singles([21, 4]) == [[21], [4]]
  {
    assert Decimal(21) == Decimal(2) + [(('0' as int) + 1) as char] == "21";
    assert [21, 4][1..] == [4];
    assert Join([4]) == Decimal(4) == "4";
    assert Singles([4]) == [[4]];
  }

  lemma DoubleThenSingle()
    ensures var st := ApplySgr(PLAIN, [[21], [4]]); StyleOk(st) && st.attrs.underline && st.attrs.doubleUnderline
  {
    var gs: seq<seq<nat>> := [[21], [4]];
    assert gs[1..] == [[4]];
    assert [[4]][1..] == [];
    assert SgrStep(PLAIN, gs) == (Attribute(PLAIN, [21]), 1);
  }
}
