/** What rendition parameters mean to one another: an off code undoes its on codes and
    leaves the rest alone, the last colour wins, sub-parameters and the two forms of an
    extended colour say the same. */
module SgrLaws {
  import opened Prelude
  import opened CsiParams
  import opened Sgr

  /** The codes that switch an attribute on. */
  predicate IsOn(p: nat) { 1 <= p <= 9 || p == 21 || p == 53 }

  /** The codes that switch some off. */
  predicate IsOff(p: nat) { 22 <= p <= 25 || 27 <= p <= 29 || p == 55 }

  lemma OneGroup(st: Style, g: seq<nat>)
    requires g != [] && !IsExtended(g[0])
    ensures ApplySgr(st, [g]) == Attribute(st, g)
  {
    assert [g][1..] == [];
  }

  /** Groups that are no extended colour take effect one by one. */
  lemma TwoGroups(st: Style, g: seq<nat>, h: seq<nat>)
    requires g != [] && h != [] && !IsExtended(g[0]) && !IsExtended(h[0])
    ensures ApplySgr(st, [g, h]) == ApplySgr(ApplySgr(st, [g]), [h])
  {
    assert [g, h][1..] == [h];
    OneGroup(st, g);
  }

  /** An off code clears what it is for and touches nothing else. */
  lemma OffCodeAlone(st: Style, off: nat, a: Attrs)
    requires off != 0 && !IsExtended(off) && !IsHue(off) && Switch(st.attrs, [off]) == a
    ensures ApplySgr(st, [[off]]) == st.(attrs := a)
  {
    OneGroup(st, [off]);
  }

  lemma BoldItalicOff(st: Style)
    ensures ApplySgr(st, [[22]]) == st.(attrs := st.attrs.(bold := false, dim := false))
    ensures ApplySgr(st, [[23]]) == st.(attrs := st.attrs.(italic := false))
  {
    OffCodeAlone(st, 22, st.attrs.(bold := false, dim := false));
    OffCodeAlone(st, 23, st.attrs.(italic := false));
  }

  lemma UnderlineBlinkOff(st: Style)
    ensures ApplySgr(st, [[24]]) == st.(attrs := st.attrs.(underline := false, doubleUnderline := false))
    ensures ApplySgr(st, [[25]]) == st.(attrs := st.attrs.(blink := false))
  {
    OffCodeAlone(st, 24, st.attrs.(underline := false, doubleUnderline := false));
    OffCodeAlone(st, 25, st.attrs.(blink := false));
  }

  lemma InverseHiddenOff(st: Style)
    ensures ApplySgr(st, [[27]]) == st.(attrs := st.attrs.(inverse := false))
    ensures ApplySgr(st, [[28]]) == st.(attrs := st.attrs.(hidden := false))
  {
    OffCodeAlone(st, 27, st.attrs.(inverse := false));
    OffCodeAlone(st, 28, st.attrs.(hidden := false));
  }

  lemma StrikeOverlineOff(st: Style)
    ensures ApplySgr(st, [[29]]) == st.(attrs := st.attrs.(strikethrough := false))
    ensures ApplySgr(st, [[55]]) == st.(attrs := st.attrs.(overline := false))
  {
    OffCodeAlone(st, 29, st.attrs.(strikethrough := false));
    OffCodeAlone(st, 55, st.attrs.(overline := false));
  }

  /** On and then off is off alone. */
  lemma Undoes(st: Style, on: nat, off: nat)
    requires !IsExtended(on) && !IsExtended(off) && Attribute(Attribute(st, [on]), [off]) == Attribute(st, [off])
    ensures ApplySgr(st, [[on], [off]]) == ApplySgr(st, [[off]])
  {
    TwoGroups(st, [on], [off]);
    OneGroup(st, [on]);
    OneGroup(st, [off]);
    OneGroup(ApplySgr(st, [[on]]), [off]);
  }

  lemma BoldUndone(st: Style)
    ensures ApplySgr(st, [[1], [22]]) == ApplySgr(st, [[22]])
  {
    Undoes(st, 1, 22);
  }

  lemma DimUndone(st: Style)
    ensures ApplySgr(st, [[2], [22]]) == ApplySgr(st, [[22]])
  {
    Undoes(st, 2, 22);
  }

  lemma ItalicUndone(st: Style)
    ensures ApplySgr(st, [[3], [23]]) == ApplySgr(st, [[23]])
  {
    Undoes(st, 3, 23);
  }

  lemma UnderlineUndone(st: Style)
    ensures ApplySgr(st, [[4], [24]]) == ApplySgr(st, [[24]])
  {
    Undoes(st, 4, 24);
  }

  lemma DoubleUnderlineUndone(st: Style)
    ensures ApplySgr(st, [[21], [24]]) == ApplySgr(st, [[24]])
  {
    Undoes(st, 21, 24);
  }

  lemma BlinkUndone(st: Style)
    ensures ApplySgr(st, [[5], [25]]) == ApplySgr(st, [[25]])
  {
    Undoes(st, 5, 25);
  }

  lemma RapidBlinkUndone(st: Style)
    ensures ApplySgr(st, [[6], [25]]) == ApplySgr(st, [[25]])
  {
    Undoes(st, 6, 25);
  }

  lemma InverseUndone(st: Style)
    ensures ApplySgr(st, [[7], [27]]) == ApplySgr(st, [[27]])
  {
    Undoes(st, 7, 27);
  }

  lemma HiddenUndone(st: Style)
    ensures ApplySgr(st, [[8], [28]]) == ApplySgr(st, [[28]])
  {
    Undoes(st, 8, 28);
  }

  lemma StrikeUndone(st: Style)
    ensures ApplySgr(st, [[9], [29]]) == ApplySgr(st, [[29]])
  {
    Undoes(st, 9, 29);
  }

  lemma OverlineUndone(st: Style)
    ensures ApplySgr(st, [[53], [55]]) == ApplySgr(st, [[55]])
  {
    Undoes(st, 53, 55);
  }

  /** 0 alone resets everything. */
  lemma ResetsAll(st: Style)
    ensures ApplySgr(st, [[0]]) == PLAIN
  {
    OneGroup(st, [0]);
  }

  // --- underlines --------------------------------------------------------------------------

  /** 4 with a sub-parameter: 0 is 24, 2 is 21, and every other one is a single underline,
      whatever was there. */
  lemma UnderlineKinds(st: Style, kind: nat)
    ensures ApplySgr(st, [[4, 0]]) == ApplySgr(st, [[24]]) && ApplySgr(st, [[4, 2]]) == ApplySgr(st, [[21]])
    ensures kind != 0 && kind != 2 ==> ApplySgr(st, [[4, kind]]) == ApplySgr(st, [[24], [4]])
  {
    OneGroup(st, [4, 0]);
    OneGroup(st, [4, 2]);
    OneGroup(st, [4, kind]);
    OneGroup(st, [24]);
    OneGroup(st, [21]);
    TwoGroups(st, [24], [4]);
    OneGroup(ApplySgr(st, [[24]]), [4]);
  }

  // --- colours -----------------------------------------------------------------------------

  /** The codes of one plane: the eight colours, the eight bright ones, the default. */
  predicate OfPlane(p: nat, foreground: bool) {
    if foreground then 30 <= p <= 37 || 90 <= p <= 97 || p == 39 else 40 <= p <= 47 || 100 <= p <= 107 || p == 49
  }

  /** The last colour of a plane stands, 39 and 49 among them; the planes do not interfere,
      with each other or with attributes. */
  lemma LastColorStands(st: Style, p: nat, q: nat, foreground: bool)
    requires OfPlane(p, foreground) && OfPlane(q, foreground)
    ensures ApplySgr(st, [[p], [q]]) == ApplySgr(st, [[q]])
  {
    TwoGroups(st, [p], [q]);
    OneGroup(st, [p]);
    OneGroup(st, [q]);
    OneGroup(ApplySgr(st, [[p]]), [q]);
  }

  lemma PlanesApart(st: Style, p: nat, q: nat)
    requires OfPlane(p, true) && (OfPlane(q, false) || q == 59 || IsOn(q) || IsOff(q))
    ensures ApplySgr(st, [[p], [q]]) == ApplySgr(st, [[q], [p]])
  {
    TwoGroups(st, [p], [q]);
    TwoGroups(st, [q], [p]);
    OneGroup(st, [p]);
    OneGroup(st, [q]);
    OneGroup(ApplySgr(st, [[p]]), [q]);
    OneGroup(ApplySgr(st, [[q]]), [p]);
  }

  /** 39, 49 and 59 give the default back, and nothing else. */
  lemma DefaultsColor(st: Style)
    ensures ApplySgr(st, [[39]]) == st.(fg := PLAIN.fg) && ApplySgr(st, [[49]]) == st.(bg := PLAIN.bg)
    ensures ApplySgr(st, [[59]]) == st.(underlineColor := PLAIN.underlineColor)
  {
    OneGroup(st, [39]);
    OneGroup(st, [49]);
    OneGroup(st, [59]);
  }

  /** The plane an extended colour is for. */
  function Plane(st: Style, p: nat): Color { if p == 38 then st.fg else if p == 48 then st.bg else st.underlineColor }

  predicate OnlyPlane(st: Style, t: Style, p: nat) {
    && t.attrs == st.attrs && (p == 38 || t.fg == st.fg) && (p == 48 || t.bg == st.bg)
    && (p == 58 || t.underlineColor == st.underlineColor)
  }

  /** The colon forms and the semicolon forms of an extended colour agree: an index, and RGB
      with a colour-space slot or without; each sets its own plane alone, to values cut at 255. */
  lemma IndexForms(st: Style, p: nat, n: nat)
    requires IsExtended(p)
    ensures ApplySgr(st, [[p, 5, n]]) == ApplySgr(st, [[p], [5], [n]])
    ensures OnlyPlane(st, ApplySgr(st, [[p, 5, n]]), p)
    ensures Plane(ApplySgr(st, [[p, 5, n]]), p) == Color(2, Min(n, 255), 0, 0, 0)
  {
    assert [[p, 5, n]][1..] == [] && [[p], [5], [n]][3..] == [];
  }

  lemma RgbForms(st: Style, p: nat, r: nat, g: nat, b: nat, space: nat)
    requires IsExtended(p)
    ensures ApplySgr(st, [[p, 2, r, g, b]]) == ApplySgr(st, [[p], [2], [r], [g], [b]])
    ensures ApplySgr(st, [[p, 2, space, r, g, b]]) == ApplySgr(st, [[p, 2, r, g, b]])
    ensures OnlyPlane(st, ApplySgr(st, [[p, 2, r, g, b]]), p)
    ensures Plane(ApplySgr(st, [[p, 2, r, g, b]]), p) == Color(3, 0, Min(r, 255), Min(g, 255), Min(b, 255))
  {
    assert [[p, 2, r, g, b]][1..] == [] && [[p, 2, space, r, g, b]][1..] == [] && [[p], [2], [r], [g], [b]][5..] == [];
  }
}
