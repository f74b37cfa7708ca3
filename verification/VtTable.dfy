/** The parser's transition table: 14 states by 256 bytes. Built the way the program
    builds it, by overwriting ranges, and proved equal to a direct definition. */
module VtTable {

  const GROUND := 0
  const ESCAPE := 1
  const ESCAPE_INTERMEDIATE := 2
  const CSI_ENTRY := 3
  const CSI_PARAM := 4
  const CSI_INTERMEDIATE := 5
  const CSI_IGNORE := 6
  const DCS_ENTRY := 7
  const DCS_PARAM := 8
  const DCS_INTERMEDIATE := 9
  const DCS_PASSTHROUGH := 10
  const DCS_IGNORE := 11
  const OSC_STRING := 12
  const SOS_PM_APC_STRING := 13
  const NUM_STATES := 14

  type State = s: nat | s < NUM_STATES
  type Byte = b: nat | b < 256

  datatype Action =
    | Nop | Print | Execute | Clear | Collect | Param | Subparam | EscDispatch | CsiDispatch
    | Hook | Put | Unhook | OscStart | OscPut | OscEnd | Marker

  datatype Transition = Unset | Go(act: Action, next: State)

  function EntryAction(s: State): Action {
    if s == ESCAPE || s == CSI_ENTRY || s == DCS_ENTRY then Clear
    else if s == OSC_STRING then OscStart
    else if s == DCS_PASSTHROUGH then Hook
    else Nop
  }

  function ExitAction(s: State): Action {
    if s == OSC_STRING then OscEnd else if s == DCS_PASSTHROUGH then Unhook else Nop
  }

  // --- the direct definition -----------------------------------------------------------

  predicate IsC0(b: Byte) { b <= 0x17 || b == 0x19 || 0x1C <= b <= 0x1F }

  /** What a string-collecting state does not treat as a C1 control. */
  predicate Collects(s: State) { s == DCS_PASSTHROUGH || s == OSC_STRING || s == SOS_PM_APC_STRING }

  function C1(b: Byte): Transition
    requires 0x80 <= b <= 0x9F
  {
    if b == 0x90 then Go(Nop, DCS_ENTRY)
    else if b == 0x98 || b == 0x9E || b == 0x9F then Go(Nop, SOS_PM_APC_STRING)
    else if b == 0x9B then Go(Nop, CSI_ENTRY)
    else if b == 0x9C then Go(Nop, GROUND)
    else if b == 0x9D then Go(Nop, OSC_STRING)
    else Go(Execute, GROUND)
  }

  /** Bytes with one meaning in (almost) every state. */
  function Entry(s: State, b: Byte): Transition {
    if b == 0x18 || b == 0x1A then Go(Execute, GROUND)
    else if b == 0x1B then Go(Nop, ESCAPE)
    else if s != GROUND && Collects(s) && b == 0x9C then Go(Nop, GROUND)
    else if s != GROUND && !Collects(s) && 0x80 <= b <= 0x9F then C1(b)
    else Own(s, b)
  }

  /** The bytes each state treats in its own way. */
  function Own(s: State, b: Byte): Transition {
    if s == GROUND then (if IsC0(b) then Go(Execute, s) else Go(Print, s))
    else if s == ESCAPE then OwnEscape(b)
    else if s == ESCAPE_INTERMEDIATE then
      if IsC0(b) then Go(Execute, s)
      else if b <= 0x2F then Go(Collect, s)
      else if b <= 0x7E then Go(EscDispatch, GROUND)
      else Go(Nop, s)
    else if s == CSI_ENTRY || s == CSI_PARAM then OwnCsi(s, b)
    else if s == CSI_INTERMEDIATE then
      if IsC0(b) then Go(Execute, s)
      else if b <= 0x2F then Go(Collect, s)
      else if b <= 0x3F then Go(Nop, CSI_IGNORE)
      else if b <= 0x7E then Go(CsiDispatch, GROUND)
      else Go(Nop, s)
    else if s == CSI_IGNORE then
      if IsC0(b) then Go(Execute, s)
      else if b <= 0x3F then Go(Nop, s)
      else if b <= 0x7E then Go(Nop, GROUND)
      else Go(Nop, s)
    else if s == DCS_ENTRY || s == DCS_PARAM then OwnDcs(s, b)
    else if s == DCS_INTERMEDIATE then
      if b <= 0x1F then Go(Nop, s)
      else if b <= 0x2F then Go(Collect, s)
      else if b <= 0x3F then Go(Nop, DCS_IGNORE)
      else if b <= 0x7E then Go(Nop, DCS_PASSTHROUGH)
      else Go(Nop, s)
    else if s == DCS_PASSTHROUGH then (if b == 0x7F then Go(Nop, s) else Go(Put, s))
    else if s == OSC_STRING then (if b == 0x07 then Go(Nop, GROUND) else Go(OscPut, s))
    else Go(Nop, s)
  }

  function OwnEscape(b: Byte): Transition {
    if IsC0(b) then Go(Execute, ESCAPE)
    else if b <= 0x2F then Go(Collect, ESCAPE_INTERMEDIATE)
    else if b == 0x50 then Go(Nop, DCS_ENTRY)
    else if b == 0x58 || b == 0x5E || b == 0x5F then Go(Nop, SOS_PM_APC_STRING)
    else if b == 0x5B then Go(Nop, CSI_ENTRY)
    else if b == 0x5D then Go(Nop, OSC_STRING)
    else if b <= 0x7E then Go(EscDispatch, GROUND)
    else Go(Nop, ESCAPE)
  }

  function OwnCsi(s: State, b: Byte): Transition {
    if IsC0(b) then Go(Execute, s)
    else if b <= 0x2F then Go(Collect, CSI_INTERMEDIATE)
    else if b <= 0x39 || b == 0x3B then Go(Param, CSI_PARAM)
    else if b == 0x3A then Go(Subparam, CSI_PARAM)
    else if b <= 0x3F then (if s == CSI_ENTRY then Go(Marker, CSI_PARAM) else Go(Nop, CSI_IGNORE))
    else if b <= 0x7E then Go(CsiDispatch, GROUND)
    else Go(Nop, s)
  }

  function OwnDcs(s: State, b: Byte): Transition {
    if b <= 0x1F then Go(Nop, s)
    else if b <= 0x2F then Go(Collect, DCS_INTERMEDIATE)
    else if b <= 0x39 || b == 0x3B then Go(Param, DCS_PARAM)
    else if b == 0x3A then Go(Subparam, DCS_PARAM)
    else if b <= 0x3F then (if s == DCS_ENTRY then Go(Marker, DCS_PARAM) else Go(Nop, DCS_IGNORE))
    else if b <= 0x7E then Go(Nop, DCS_PASSTHROUGH)
    else Go(Nop, s)
  }

  // --- the construction by overwriting ranges ---------------------------------------------

  method SetRange(t: array2<Transition>, s: State, lo: Byte, hi: Byte, tr: Transition)
    requires t.Length0 == NUM_STATES && t.Length1 == 256
    modifies t
    ensures forall r, b :: 0 <= r < NUM_STATES && 0 <= b < 256 ==>
              t[r, b] == if r == s && lo <= b <= hi then tr else old(t[r, b])
  {
    var i: nat := lo;
    while i <= hi
      invariant lo <= i
      invariant forall r, b :: 0 <= r < NUM_STATES && 0 <= b < 256 ==>
                  t[r, b] == if r == s && lo <= b < i && b <= hi then tr else old(t[r, b])
    {
      t[s, i] := tr;
      i := i + 1;
    }
  }

  /** The C0 controls other than CAN, SUB and ESC. */
  method SetC0(t: array2<Transition>, s: State, tr: Transition)
    requires t.Length0 == NUM_STATES && t.Length1 == 256
    modifies t
    ensures forall r, b :: 0 <= r < NUM_STATES && 0 <= b < 256 ==>
              t[r, b] == if r == s && IsC0(b) then tr else old(t[r, b])
  {
    SetRange(t, s, 0x00, 0x17, tr);
    SetRange(t, s, 0x19, 0x19, tr);
    SetRange(t, s, 0x1C, 0x1F, tr);
  }

  /** One row holds its own meanings; CAN, SUB and ESC are settled later. */
  ghost predicate RowBuilt(t: array2<Transition>, s: State)
    requires t.Length0 == NUM_STATES && t.Length1 == 256
    reads t
  {
    forall b: Byte :: b != 0x18 && b != 0x1A && b != 0x1B ==> t[s, b] == Own(s, b)
  }

  twostate predicate OtherRows(t: array2<Transition>, s: State)
    requires t.Length0 == NUM_STATES && t.Length1 == 256
    reads t
  {
    forall r, b :: 0 <= r < NUM_STATES && 0 <= b < 256 && r != s ==> t[r, b] == old(t[r, b])
  }

  method BuildGround(t: array2<Transition>)
    requires t.Length0 == NUM_STATES && t.Length1 == 256
    modifies t
    ensures RowBuilt(t, GROUND) && OtherRows(t, GROUND)
  {
    SetC0(t, GROUND, Go(Execute, GROUND));
    SetRange(t, GROUND, 0x18, 0x18, Go(Execute, GROUND));
    SetRange(t, GROUND, 0x1A, 0x1A, Go(Execute, GROUND));
    SetRange(t, GROUND, 0x1B, 0x1B, Go(Nop, ESCAPE));
    SetRange(t, GROUND, 0x20, 0x7F, Go(Print, GROUND));
    SetRange(t, GROUND, 0x80, 0x9F, Go(Print, GROUND));
    SetRange(t, GROUND, 0xA0, 0xFF, Go(Print, GROUND));
  }

  method BuildEscape(t: array2<Transition>)
    requires t.Length0 == NUM_STATES && t.Length1 == 256
    modifies t
    ensures RowBuilt(t, ESCAPE) && OtherRows(t, ESCAPE)
    ensures t[ESCAPE, 0x1B] == old(t[ESCAPE, 0x1B])
  {
    SetC0(t, ESCAPE, Go(Execute, ESCAPE));
    SetRange(t, ESCAPE, 0x20, 0x2F, Go(Collect, ESCAPE_INTERMEDIATE));
    SetRange(t, ESCAPE, 0x30, 0x4F, Go(EscDispatch, GROUND));
    SetRange(t, ESCAPE, 0x51, 0x57, Go(EscDispatch, GROUND));
    SetRange(t, ESCAPE, 0x59, 0x5A, Go(EscDispatch, GROUND));
    SetRange(t, ESCAPE, 0x5C, 0x5C, Go(EscDispatch, GROUND));
    SetRange(t, ESCAPE, 0x60, 0x7E, Go(EscDispatch, GROUND));
    SetRange(t, ESCAPE, 0x5B, 0x5B, Go(Nop, CSI_ENTRY));
    SetRange(t, ESCAPE, 0x5D, 0x5D, Go(Nop, OSC_STRING));
    SetRange(t, ESCAPE, 0x50, 0x50, Go(Nop, DCS_ENTRY));
    SetRange(t, ESCAPE, 0x58, 0x58, Go(Nop, SOS_PM_APC_STRING));
    SetRange(t, ESCAPE, 0x5E, 0x5F, Go(Nop, SOS_PM_APC_STRING));
    SetRange(t, ESCAPE, 0x7F, 0x7F, Go(Nop, ESCAPE));
    SetRange(t, ESCAPE, 0x80, 0xFF, Go(Nop, ESCAPE));
  }

  method BuildEscapeIntermediate(t: array2<Transition>)
    requires t.Length0 == NUM_STATES && t.Length1 == 256
    modifies t
    ensures RowBuilt(t, ESCAPE_INTERMEDIATE) && OtherRows(t, ESCAPE_INTERMEDIATE)
  {
    var s: State := ESCAPE_INTERMEDIATE;
    SetC0(t, s, Go(Execute, s));
    SetRange(t, s, 0x20, 0x2F, Go(Collect, s));
    SetRange(t, s, 0x30, 0x7E, Go(EscDispatch, GROUND));
    SetRange(t, s, 0x7F, 0x7F, Go(Nop, s));
    SetRange(t, s, 0x80, 0xFF, Go(Nop, s));
  }

  /** The entry and parameter states differ only in their C0 handling, their
      parameter states and what a private marker does. */
  method BuildParams(t: array2<Transition>, s: State)
    requires t.Length0 == NUM_STATES && t.Length1 == 256
    requires s == CSI_ENTRY || s == CSI_PARAM || s == DCS_ENTRY || s == DCS_PARAM
    modifies t
    ensures RowBuilt(t, s) && OtherRows(t, s)
  {
    var csi := s == CSI_ENTRY || s == CSI_PARAM;
    var params: State := if csi then CSI_PARAM else DCS_PARAM;
    var ignore: State := if csi then CSI_IGNORE else DCS_IGNORE;
    SetC0(t, s, if csi then Go(Execute, s) else Go(Nop, s));
    SetRange(t, s, 0x20, 0x2F, Go(Collect, if csi then CSI_INTERMEDIATE else DCS_INTERMEDIATE));
    SetRange(t, s, 0x30, 0x39, Go(Param, params));
    SetRange(t, s, 0x3B, 0x3B, Go(Param, params));
    SetRange(t, s, 0x3A, 0x3A, Go(Subparam, params));
    SetRange(t, s, 0x3C, 0x3F, if s == CSI_ENTRY || s == DCS_ENTRY then Go(Marker, params) else Go(Nop, ignore));
    SetRange(t, s, 0x40, 0x7E, if csi then Go(CsiDispatch, GROUND) else Go(Nop, DCS_PASSTHROUGH));
    SetRange(t, s, 0x7F, 0x7F, Go(Nop, s));
    SetRange(t, s, 0x80, 0xFF, Go(Nop, s));
  }

  method BuildIntermediate(t: array2<Transition>, s: State)
    requires t.Length0 == NUM_STATES && t.Length1 == 256
    requires s == CSI_INTERMEDIATE || s == DCS_INTERMEDIATE
    modifies t
    ensures RowBuilt(t, s) && OtherRows(t, s)
  {
    var csi := s == CSI_INTERMEDIATE;
    SetC0(t, s, if csi then Go(Execute, s) else Go(Nop, s));
    SetRange(t, s, 0x20, 0x2F, Go(Collect, s));
    SetRange(t, s, 0x30, 0x3F, Go(Nop, if csi then CSI_IGNORE else DCS_IGNORE));
    SetRange(t, s, 0x40, 0x7E, if csi then Go(CsiDispatch, GROUND) else Go(Nop, DCS_PASSTHROUGH));
    SetRange(t, s, 0x7F, 0x7F, Go(Nop, s));
    SetRange(t, s, 0x80, 0xFF, Go(Nop, s));
  }

  method BuildCsiIgnore(t: array2<Transition>)
    requires t.Length0 == NUM_STATES && t.Length1 == 256
    modifies t
    ensures RowBuilt(t, CSI_IGNORE) && OtherRows(t, CSI_IGNORE)
  {
    var s: State := CSI_IGNORE;
    SetC0(t, s, Go(Execute, s));
    SetRange(t, s, 0x20, 0x3F, Go(Nop, s));
    SetRange(t, s, 0x40, 0x7E, Go(Nop, GROUND));
    SetRange(t, s, 0x7F, 0x7F, Go(Nop, s));
    SetRange(t, s, 0x80, 0xFF, Go(Nop, s));
  }

  method BuildStrings(t: array2<Transition>)
    requires t.Length0 == NUM_STATES && t.Length1 == 256
    modifies t
    ensures RowBuilt(t, DCS_PASSTHROUGH) && RowBuilt(t, DCS_IGNORE)
    ensures RowBuilt(t, OSC_STRING) && RowBuilt(t, SOS_PM_APC_STRING)
    ensures forall r, b :: 0 <= r < DCS_PASSTHROUGH && 0 <= b < 256 ==> t[r, b] == old(t[r, b])
  {
    SetC0(t, DCS_PASSTHROUGH, Go(Put, DCS_PASSTHROUGH));
    SetRange(t, DCS_PASSTHROUGH, 0x20, 0x7E, Go(Put, DCS_PASSTHROUGH));
    SetRange(t, DCS_PASSTHROUGH, 0x7F, 0x7F, Go(Nop, DCS_PASSTHROUGH));
    SetRange(t, DCS_PASSTHROUGH, 0x80, 0xFF, Go(Put, DCS_PASSTHROUGH));
    SetC0(t, DCS_IGNORE, Go(Nop, DCS_IGNORE));
    SetRange(t, DCS_IGNORE, 0x20, 0xFF, Go(Nop, DCS_IGNORE));
    SetC0(t, OSC_STRING, Go(OscPut, OSC_STRING));
    SetRange(t, OSC_STRING, 0x07, 0x07, Go(Nop, GROUND));
    SetRange(t, OSC_STRING, 0x20, 0xFF, Go(OscPut, OSC_STRING));
    SetC0(t, SOS_PM_APC_STRING, Go(Nop, SOS_PM_APC_STRING));
    SetRange(t, SOS_PM_APC_STRING, 0x20, 0xFF, Go(Nop, SOS_PM_APC_STRING));
  }

  /** What the anywhere rules leave in one row. */
  ghost predicate RowSettled(t: array2<Transition>, s: State)
    requires t.Length0 == NUM_STATES && t.Length1 == 256
    reads t
  {
    forall b: Byte :: t[s, b] == (if s == ESCAPE && b == 0x1B then Unset else Entry(s, b))
  }

  method ApplyAnywhereTo(t: array2<Transition>, s: State)
    requires t.Length0 == NUM_STATES && t.Length1 == 256
    requires RowBuilt(t, s) && (s == ESCAPE ==> t[s, 0x1B] == Unset)
    modifies t
    ensures RowSettled(t, s) && OtherRows(t, s)
  {
    SetRange(t, s, 0x18, 0x18, Go(Execute, GROUND));
    SetRange(t, s, 0x1A, 0x1A, Go(Execute, GROUND));
    if s != ESCAPE {
      SetRange(t, s, 0x1B, 0x1B, Go(Nop, ESCAPE));
    }
    if s == GROUND { return; }
    if !Collects(s) {
      SetRange(t, s, 0x80, 0x8F, Go(Execute, GROUND));
      SetRange(t, s, 0x90, 0x90, Go(Nop, DCS_ENTRY));
      SetRange(t, s, 0x91, 0x97, Go(Execute, GROUND));
      SetRange(t, s, 0x98, 0x98, Go(Nop, SOS_PM_APC_STRING));
      SetRange(t, s, 0x99, 0x9A, Go(Execute, GROUND));
      SetRange(t, s, 0x9B, 0x9B, Go(Nop, CSI_ENTRY));
      SetRange(t, s, 0x9C, 0x9C, Go(Nop, GROUND));
      SetRange(t, s, 0x9D, 0x9D, Go(Nop, OSC_STRING));
      SetRange(t, s, 0x9E, 0x9F, Go(Nop, SOS_PM_APC_STRING));
    } else {
      SetRange(t, s, 0x9C, 0x9C, Go(Nop, GROUND));
    }
  }

  ghost predicate BuiltBelow(t: array2<Transition>, n: nat)
    requires t.Length0 == NUM_STATES && t.Length1 == 256
    reads t
  {
    forall r: State :: r < n ==> RowBuilt(t, r)
  }

  method BuildEscapes(t: array2<Transition>)
    requires t.Length0 == NUM_STATES && t.Length1 == 256
    modifies t
    ensures BuiltBelow(t, CSI_ENTRY)
    ensures t[ESCAPE, 0x1B] == old(t[ESCAPE, 0x1B])
  {
    BuildGround(t);
    label G:
    BuildEscape(t);
    assert BuiltBelow(t, ESCAPE + 1) by {
      forall r: State | r < ESCAPE ensures RowBuilt(t, r) { assert old@G(RowBuilt(t, r)); }
    }
    label E:
    BuildEscapeIntermediate(t);
    assert BuiltBelow(t, ESCAPE_INTERMEDIATE + 1) by {
      forall r: State | r < ESCAPE_INTERMEDIATE ensures RowBuilt(t, r) { assert old@E(RowBuilt(t, r)); }
    }
  }

  method BuildCsi(t: array2<Transition>)
    requires t.Length0 == NUM_STATES && t.Length1 == 256
    requires BuiltBelow(t, CSI_ENTRY)
    modifies t
    ensures BuiltBelow(t, DCS_ENTRY)
    ensures t[ESCAPE, 0x1B] == old(t[ESCAPE, 0x1B])
  {
    BuildParams(t, CSI_ENTRY);
    assert BuiltBelow(t, CSI_ENTRY + 1) by { forall r: State | r < CSI_ENTRY ensures RowBuilt(t, r) { assert old(RowBuilt(t, r)); } }
    label P:
    BuildParams(t, CSI_PARAM);
    assert BuiltBelow(t, CSI_PARAM + 1) by {
      forall r: State | r < CSI_PARAM ensures RowBuilt(t, r) { assert old@P(RowBuilt(t, r)); }
    }
    label I:
    BuildIntermediate(t, CSI_INTERMEDIATE);
    assert BuiltBelow(t, CSI_INTERMEDIATE + 1) by {
      forall r: State | r < CSI_INTERMEDIATE ensures RowBuilt(t, r) { assert old@I(RowBuilt(t, r)); }
    }
    label G:
    BuildCsiIgnore(t);
    assert BuiltBelow(t, CSI_IGNORE + 1) by {
      forall r: State | r < CSI_IGNORE ensures RowBuilt(t, r) { assert old@G(RowBuilt(t, r)); }
    }
  }

  method BuildDcs(t: array2<Transition>)
    requires t.Length0 == NUM_STATES && t.Length1 == 256
    requires BuiltBelow(t, DCS_ENTRY)
    modifies t
    ensures BuiltBelow(t, DCS_PASSTHROUGH)
    ensures t[ESCAPE, 0x1B] == old(t[ESCAPE, 0x1B])
  {
    BuildParams(t, DCS_ENTRY);
    assert BuiltBelow(t, DCS_ENTRY + 1) by { forall r: State | r < DCS_ENTRY ensures RowBuilt(t, r) { assert old(RowBuilt(t, r)); } }
    label P:
    BuildParams(t, DCS_PARAM);
    assert BuiltBelow(t, DCS_PARAM + 1) by {
      forall r: State | r < DCS_PARAM ensures RowBuilt(t, r) { assert old@P(RowBuilt(t, r)); }
    }
    label I:
    BuildIntermediate(t, DCS_INTERMEDIATE);
    assert BuiltBelow(t, DCS_INTERMEDIATE + 1) by {
      forall r: State | r < DCS_INTERMEDIATE ensures RowBuilt(t, r) { assert old@I(RowBuilt(t, r)); }
    }
  }

  ghost predicate SettledBelow(t: array2<Transition>, n: nat)
    requires t.Length0 == NUM_STATES && t.Length1 == 256
    reads t
  {
    forall r: State :: r < n ==> RowSettled(t, r)
  }

  ghost predicate BuiltFrom(t: array2<Transition>, n: nat)
    requires t.Length0 == NUM_STATES && t.Length1 == 256
    reads t
  {
    forall r: State :: n <= r ==> RowBuilt(t, r)
  }

  method ApplyAnywhere(t: array2<Transition>)
    requires t.Length0 == NUM_STATES && t.Length1 == 256
    requires BuiltFrom(t, 0) && t[ESCAPE, 0x1B] == Unset
    modifies t
    ensures SettledBelow(t, NUM_STATES)
  {
    for s := 0 to NUM_STATES
      invariant SettledBelow(t, s) && BuiltFrom(t, s)
      invariant s <= ESCAPE ==> t[ESCAPE, 0x1B] == Unset
    {
      label L:
      assert RowBuilt(t, s);
      ApplyAnywhereTo(t, s);
      forall r: State | r < s ensures RowSettled(t, r) { assert old@L(RowSettled(t, r)); }
      forall r: State | s + 1 <= r ensures RowBuilt(t, r) { assert old@L(RowBuilt(t, r)); }
    }
  }

  /** Every cell nothing else set is filled with ignore-and-stay. */
  method FillUnset(t: array2<Transition>)
    requires t.Length0 == NUM_STATES && t.Length1 == 256
    modifies t
    ensures forall s: State, b: Byte :: t[s, b] == Filled(s, old(t[s, b]))
  {
    for s := 0 to NUM_STATES
      invariant forall r: State, c: Byte :: r < s ==> t[r, c] == Filled(r, old(t[r, c]))
      invariant forall r: State, c: Byte :: s <= r ==> t[r, c] == old(t[r, c])
    {
      for b := 0 to 256
        invariant forall r: State, c: Byte :: r < s || (r == s && c < b) ==> t[r, c] == Filled(r, old(t[r, c]))
        invariant forall r: State, c: Byte :: s < r || (r == s && b <= c) ==> t[r, c] == old(t[r, c])
      {
        if t[s, b] == Unset {
          t[s, b] := Go(Nop, s);
        }
      }
    }
  }

  function Filled(s: State, tr: Transition): Transition {
    if tr == Unset then Go(Nop, s) else tr
  }

  lemma FillsEscape(s: State, b: Byte)
    ensures Filled(s, if s == ESCAPE && b == 0x1B then Unset else Entry(s, b)) == Entry(s, b)
  {}

  /** The finished table is the direct definition, every cell of it. */
  method BuildTable() returns (t: array2<Transition>)
    ensures fresh(t) && t.Length0 == NUM_STATES && t.Length1 == 256
    ensures forall s: State, b: Byte :: t[s, b] == Entry(s, b)
  {
    t := new Transition[NUM_STATES, 256]((_, _) => Unset);
    BuildEscapes(t);
    BuildCsi(t);
    BuildDcs(t);
    label D:
    BuildStrings(t);
    assert BuiltFrom(t, 0) by {
      forall r: State ensures RowBuilt(t, r) {
        if r < DCS_PASSTHROUGH { assert old@D(RowBuilt(t, r)); }
      }
    }
    ApplyAnywhere(t);
    label A:
    FillUnset(t);
    forall s: State, b: Byte ensures t[s, b] == Entry(s, b) {
      assert old@A(RowSettled(t, s));
      FillsEscape(s, b);
    }
  }
}
