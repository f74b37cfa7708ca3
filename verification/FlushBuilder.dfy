/** The frame builder: one cache of what was last sent, diffed by absolute line
    index, shared by every attached client. */
module FlushBuilder {
  import opened Prelude
  import opened WireTypes

  /** The announced DEC private modes, one field per mode the builder tracks. */
  datatype Modes = Modes(
    bracketedPaste: bool, appCursorKeys: bool, mouseSGR: bool, mousePixels: bool,
    focusReporting: bool, mouseMode: nat, appKeypad: bool, reverseVideo: bool, kbdFlags: nat)

  /** What the builder reads from the terminal screen. */
  datatype Screen = Screen(
    rows: seq<Row>, alt: bool, curRow: nat, curCol: nat,
    modes: Modes, title: string, drained: seq<Row>, bell: bool)
  {
    ghost predicate Valid() { curRow < |rows| }
  }

  /** Everything a client should be displaying at one instant. */
  datatype Picture = Picture(
    base: nat, rows: seq<Row>, alt: bool, curRow: nat, curCol: nat, modes: Modes, title: string)

  function PictureOf(s: Screen, base: nat): Picture {
    Picture(base, s.rows, s.alt, s.curRow, s.curCol, s.modes, s.title)
  }

  datatype Cache = Cache(
    prevRows: seq<Row>, prevBase: nat, prevCurRow: nat, prevCurCol: nat,
    prevModes: Modes, prevTitle: string, prevAlt: bool,
    modesAnnounced: bool, titleAnnounced: bool, prevCurValid: bool, prevAltValid: bool)
  {
    function Reset(): Cache {
      this.(prevRows := [], prevBase := 0, prevCurValid := false, modesAnnounced := false, titleAnnounced := false)
    }

    predicate AltTransitionPending(alt: bool) { prevAltValid && alt != prevAlt }

    predicate Cached(abs: nat) { prevBase <= abs < prevBase + |prevRows| }

    predicate Unchanged(abs: nat, row: Row) { Cached(abs) && prevRows[abs - prevBase] == row }
  }

  datatype Frame = Frame(
    rows: seq<Row>, scroll: seq<Row>, scrollFirst: nat, base: nat, changed: seq<nat>,
    curRow: nat, curCol: nat, alt: bool, modes: Option<Modes>, title: Option<string>,
    clipboard: Option<seq<nat>>, bell: bool, cleared: bool)

  const EMPTY_FRAME := Frame([], [], 0, 0, [], 0, 0, false, None, None, None, false, false)

  datatype Built = Built(cache: Cache, screen: Screen, frame: Option<Frame>)

  // --- the diff -----------------------------------------------------------------

  /** The window rows among the first n whose content at their absolute index is
      not the cached content, in order. */
  function Diff(c: Cache, rows: seq<Row>, base: nat, n: nat): (changed: seq<nat>)
    requires n <= |rows|
    ensures forall y: nat :: y in changed <==> y < n && !c.Unchanged(base + y, rows[y])
  {
    if n == 0 then []
    else Diff(c, rows, base, n - 1) + (if c.Unchanged(base + (n - 1), rows[n - 1]) then [] else [n - 1])
  }

  function AppendRowIfMissing(changed: seq<nat>, y: nat, rowCount: nat): (r: seq<nat>)
    ensures forall z: nat :: z in r <==> z in changed || (z == y && y < rowCount)
  {
    if y >= rowCount || y in changed then changed else changed + [y]
  }

  /** The rows a moved cursor drags into the frame. */
  function CursorRows(c: Cache, changed: seq<nat>, rowCount: nat, curRow: nat, curCol: nat): seq<nat> {
    if c.prevCurValid && (curRow != c.prevCurRow || curCol != c.prevCurCol)
    then AppendRowIfMissing(AppendRowIfMissing(changed, c.prevCurRow, rowCount), curRow, rowCount)
    else changed
  }

  predicate ModesStable(c: Cache, s: Screen) { c.modesAnnounced && s.modes == c.prevModes }

  predicate TitleStable(c: Cache, s: Screen) { c.titleAnnounced && s.title == c.prevTitle }

  /** The cache once a pending alternate-screen switch has forced a full repaint. */
  function AltSettled(c: Cache, alt: bool): Cache {
    if !c.prevAltValid || c.AltTransitionPending(alt)
    then c.Reset().(prevAlt := alt, prevAltValid := true)
    else c
  }

  /** The lines a build commits: only those drained purely on the main screen. */
  function Committable(c: Cache, s: Screen): seq<Row> {
    if !s.alt && !c.AltTransitionPending(s.alt) then s.drained else []
  }

  /** The build of one frame, as a function of the cache and the screen. */
  function Build(c: Cache, s: Screen, sized: bool, held: bool, committed: nat): Built {
    if !sized then Built(c, s.(drained := []), None)
    else if held then Built(c, s, None)
    else BuildFrom(AltSettled(c, s.alt), s, Committable(c, s), committed)
  }

  /** The rows a frame carries: the diff, the rows the cursor left and entered, and
      the cursor row again when a bell has to ride it. */
  function ChangedRows(c1: Cache, s: Screen, base: nat): seq<nat> {
    var changed := CursorRows(c1, Diff(c1, s.rows, base, |s.rows|), |s.rows|, s.curRow, s.curCol);
    if s.bell then AppendRowIfMissing(changed, s.curRow, |s.rows|) else changed
  }

  /** The rest of a build, once the alternate-screen switch and the drain are settled. */
  function BuildFrom(c1: Cache, s: Screen, out: seq<Row>, committed: nat): Built {
    var base := committed + |out|;
    var moved := !c1.prevCurValid || s.curRow != c1.prevCurRow || s.curCol != c1.prevCurCol;
    var changed := ChangedRows(c1, s, base);
    var c2 := c1.(prevRows := s.rows, prevBase := base,
                  prevCurRow := s.curRow, prevCurCol := s.curCol, prevCurValid := true);
    var s1 := s.(drained := [], bell := false);
    if changed == [] && out == [] && ModesStable(c1, s) && !moved && TitleStable(c1, s)
    then Built(c2, s1, None)
    else
      var frame := Frame(
        s.rows, out, committed, base, changed, s.curRow, s.curCol, s.alt,
        if ModesStable(c1, s) then None else Some(s.modes),
        if TitleStable(c1, s) then None else Some(s.title),
        None, s.bell, false);
      Built(c2.(prevModes := s.modes, modesAnnounced := true,
                prevTitle := s.title, titleAnnounced := true), s1, Some(frame))
  }

  /** Nothing is known to have been sent: the next frame repaints everything. */
  predicate Blank(c: Cache) {
    c.prevRows == [] && !c.modesAnnounced && !c.titleAnnounced && !c.prevCurValid
  }

  /** The cache describes one whole picture. */
  predicate Complete(c: Cache, height: nat) {
    && |c.prevRows| == height > 0 && c.prevAltValid
    && c.modesAnnounced && c.titleAnnounced && c.prevCurValid
  }

  function CachePicture(c: Cache): Picture {
    Picture(c.prevBase, c.prevRows, c.prevAlt, c.prevCurRow, c.prevCurCol, c.prevModes, c.prevTitle)
  }

  /** After an unheld build the cache is exactly the picture just built. */
  lemma BuildRecordsPicture(c: Cache, s: Screen, committed: nat)
    requires s.Valid()
    ensures var r := Build(c, s, true, false, committed);
            && CachePicture(r.cache) == PictureOf(s, committed + |Committable(c, s)|)
            && (r.frame.Some? || Complete(c, |s.rows|) ==> Complete(r.cache, |s.rows|))
  {
    var c1 := AltSettled(c, s.alt);
    assert c1.prevAltValid && c1.prevAlt == s.alt;
  }

  /** A build that sends nothing built the picture the cache already held. */
  lemma SilentBuild(c: Cache, s: Screen, committed: nat)
    requires s.Valid()
    requires Blank(c) || Complete(c, |s.rows|)
    requires Build(c, s, true, false, committed).frame.None?
    ensures Complete(c, |s.rows|) && Committable(c, s) == []
    ensures CachePicture(c) == CachePicture(Build(c, s, true, false, committed).cache)
  {
    var c1 := AltSettled(c, s.alt);
    assert c1 == c && Complete(c, |s.rows|);
    assert Committable(c, s) == [];
    var d := Diff(c, s.rows, committed, |s.rows|);
    assert CursorRows(c, d, |s.rows|, s.curRow, s.curCol) == d;
    assert d == [];
    NothingChanged(c, s.rows, committed, |s.rows|);
  }

  /** An empty diff against a window of the same height means nothing moved. */
  lemma NothingChanged(c: Cache, rows: seq<Row>, base: nat, height: nat)
    requires |rows| == height > 0
    requires |c.prevRows| == height || c.prevRows == []
    requires Diff(c, rows, base, height) == []
    ensures base == c.prevBase && rows == c.prevRows
  {
    var d := Diff(c, rows, base, height);
    var last := height - 1;
    assert 0 !in d && last !in d;
    assert c.Unchanged(base + 0, rows[0]) && c.Unchanged(base + last, rows[last]);
    forall y: nat | y < height ensures rows[y] == c.prevRows[y] {
      assert y !in d;
      assert c.Unchanged(base + y, rows[y]);
    }
  }

  // --- the builder as the program keeps it ------------------------------------------

  class FlushFrameBuilder {
    var prevRows: seq<Row>
    var prevBase: nat
    var prevCurRow: nat
    var prevCurCol: nat
    var prevModes: Modes
    var prevTitle: string
    var prevAlt: bool
    var modesAnnounced: bool
    var titleAnnounced: bool
    var prevCurValid: bool
    var prevAltValid: bool

    function Model(): Cache
      reads this
    {
      Cache(prevRows, prevBase, prevCurRow, prevCurCol, prevModes, prevTitle, prevAlt,
            modesAnnounced, titleAnnounced, prevCurValid, prevAltValid)
    }

    constructor (modes: Modes)
      ensures Blank(Model()) && !prevAltValid
    {
      prevRows, prevBase, prevCurRow, prevCurCol := [], 0, 0, 0;
      prevModes, prevTitle, prevAlt := modes, "", false;
      modesAnnounced, titleAnnounced, prevCurValid, prevAltValid := false, false, false, false;
    }

    method Reset()
      modifies this
      ensures Model() == old(Model()).Reset()
    {
      prevRows, prevBase, prevCurValid := [], 0, false;
      modesAnnounced, titleAnnounced := false, false;
    }

    /** The last-sent content for an absolute index, if the cache covers it. */
    function PrevRow(abs: nat): (r: Option<Row>)
      reads this
      ensures r.Some? <==> Model().Cached(abs)
      ensures forall row :: Model().Unchanged(abs, row) <==> r == Some(row)
    {
      if |prevRows| == 0 || abs < prevBase || abs >= prevBase + |prevRows| then None
      else Some(prevRows[abs - prevBase])
    }

    method DiffWindow(rows: seq<Row>, base: nat) returns (changed: seq<nat>)
      modifies this
      ensures changed == Diff(old(Model()), rows, base, |rows|)
      ensures Model() == old(Model()).(prevRows := rows, prevBase := base)
    {
      changed := [];
      for y := 0 to |rows|
        invariant Model() == old(Model())
        invariant changed == Diff(Model(), rows, base, y)
      {
        if PrevRow(base + y) != Some(rows[y]) {
          changed := changed + [y];
        }
      }
      prevRows, prevBase := rows, base;
    }

    method TrackCursor(changed: seq<nat>, rowCount: nat, curRow: nat, curCol: nat) returns (r: seq<nat>, moved: bool)
      modifies this
      ensures r == CursorRows(old(Model()), changed, rowCount, curRow, curCol)
      ensures moved <==> !old(prevCurValid) || curRow != old(prevCurRow) || curCol != old(prevCurCol)
      ensures Model() == old(Model()).(prevCurRow := curRow, prevCurCol := curCol, prevCurValid := true)
    {
      moved := !prevCurValid || curRow != prevCurRow || curCol != prevCurCol;
      r := changed;
      if moved && prevCurValid {
        r := AppendRowIfMissing(r, prevCurRow, rowCount);
        r := AppendRowIfMissing(r, curRow, rowCount);
      }
      prevCurRow, prevCurCol, prevCurValid := curRow, curCol, true;
    }

    method BuildModesPayload(s: Screen) returns (m: Option<Modes>)
      modifies this
      ensures m == if ModesStable(old(Model()), s) then None else Some(s.modes)
      ensures Model() == old(Model()).(prevModes := s.modes, modesAnnounced := true)
    {
      if modesAnnounced && s.modes == prevModes { return None; }
      prevModes, modesAnnounced := s.modes, true;
      m := Some(s.modes);
    }

    method BuildTitlePayload(s: Screen) returns (t: Option<string>)
      modifies this
      ensures t == if TitleStable(old(Model()), s) then None else Some(s.title)
      ensures Model() == old(Model()).(prevTitle := s.title, titleAnnounced := true)
    {
      if titleAnnounced && s.title == prevTitle { return None; }
      prevTitle, titleAnnounced := s.title, true;
      t := Some(s.title);
    }

    /** The next frame, if there is anything to send; the screen comes back with
        its drain and bell taken. */
    method BuildNext(s: Screen, sized: bool, held: bool, committed: nat) returns (frame: Option<Frame>, after: Screen)
      modifies this
      ensures Built(Model(), after, frame) == Build(old(Model()), s, sized, held, committed)
    {
      if !sized { return None, s.(drained := []); }
      if held { return None, s; }
      var altChanged := prevAltValid && s.alt != prevAlt;
      if !prevAltValid || altChanged {
        Reset();
        prevAlt, prevAltValid := s.alt, true;
      }
      assert Model() == AltSettled(old(Model()), s.alt);
      var scrollOut: seq<Row> := [];
      if !s.alt && !altChanged && |s.drained| > 0 { scrollOut := s.drained; }
      assert scrollOut == Committable(old(Model()), s);
      frame, after := BuildSettled(s, scrollOut, committed);
    }

    method BuildSettled(s: Screen, scrollOut: seq<Row>, committed: nat) returns (frame: Option<Frame>, after: Screen)
      modifies this
      ensures Built(Model(), after, frame) == BuildFrom(old(Model()), s, scrollOut, committed)
    {
      ghost var c1 := Model();
      var base := committed + |scrollOut|;
      after := s.(drained := [], bell := false);
      var changed, moved := CollectChanged(s, base);
      ghost var c2 := Model();
      frame := Emit(s, scrollOut, committed, changed, moved);
      assert ModesStable(c2, s) == ModesStable(c1, s) && TitleStable(c2, s) == TitleStable(c1, s);
    }

    /** Drop the frame when it would carry nothing, else announce what is new. */
    method Emit(s: Screen, scrollOut: seq<Row>, committed: nat, changed: seq<nat>, moved: bool) returns (frame: Option<Frame>)
      modifies this
      ensures
        var c := old(Model());
        if changed == [] && scrollOut == [] && ModesStable(c, s) && !moved && TitleStable(c, s)
        then frame.None? && Model() == c
        else
          && frame == Some(Frame(
               s.rows, scrollOut, committed, committed + |scrollOut|, changed, s.curRow, s.curCol, s.alt,
               if ModesStable(c, s) then None else Some(s.modes),
               if TitleStable(c, s) then None else Some(s.title),
               None, s.bell, false))
          && Model() == c.(prevModes := s.modes, modesAnnounced := true, prevTitle := s.title, titleAnnounced := true)
    {
      if |changed| == 0 && |scrollOut| == 0 && modesAnnounced && s.modes == prevModes
         && !moved && titleAnnounced && s.title == prevTitle {
        return None;
      }
      var modes := BuildModesPayload(s);
      var title := BuildTitlePayload(s);
      frame := Some(Frame(s.rows, scrollOut, committed, committed + |scrollOut|, changed, s.curRow, s.curCol, s.alt,
                          modes, title, None, s.bell, false));
    }

    method CollectChanged(s: Screen, base: nat) returns (changed: seq<nat>, moved: bool)
      modifies this
      ensures changed == ChangedRows(old(Model()), s, base)
      ensures moved <==> !old(prevCurValid) || s.curRow != old(prevCurRow) || s.curCol != old(prevCurCol)
      ensures Model() == old(Model()).(prevRows := s.rows, prevBase := base,
                                       prevCurRow := s.curRow, prevCurCol := s.curCol, prevCurValid := true)
    {
      changed := DiffWindow(s.rows, base);
      changed, moved := TrackCursor(changed, |s.rows|, s.curRow, s.curCol);
      if s.bell { changed := AppendRowIfMissing(changed, s.curRow, |s.rows|); }
    }
  }
}
