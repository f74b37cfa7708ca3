/** What travels on one socket and what a client makes of it: an absolute-index
    line store plus a window. */
module ClientView {
  import opened Prelude
  import opened WireTypes
  import opened FlushBuilder

  datatype Payload =
    | ModesMsg(modes: Modes)
    | TitleMsg(title: string)
    | ClipboardMsg(text: seq<nat>)
    | ScreenMsg(base: nat, height: nat, curRow: nat, curCol: nat, alt: bool, cleared: bool,
                changed: seq<nat>, rows: seq<Row>)
    | ScrollMsg(first: nat, lines: seq<Row>)
  {
    ghost predicate Valid() { ScreenMsg? ==> height == |rows| }

    /** The payloads a superseding resume snapshot makes stale. */
    predicate IsState() { ModesMsg? || TitleMsg? || ScreenMsg? }
  }

  datatype Client = Client(
    lines: map<nat, Row>, base: nat, height: nat, alt: bool, curRow: nat, curCol: nat,
    modes: Option<Modes>, title: Option<string>)

  const FRESH := Client(map[], 0, 0, false, 0, 0, None, None)

  function Apply(k: Client, p: Payload): Client {
    match p
    case ModesMsg(m) => k.(modes := Some(m))
    case TitleMsg(t) => k.(title := Some(t))
    case ClipboardMsg(_) => k
    case ScreenMsg(base, height, curRow, curCol, alt, cleared, changed, rows) =>
      var kept := if cleared then map i | i in k.lines && base <= i :: k.lines[i] else k.lines;
      k.(lines := StoreRows(kept, base, changed, rows), base := base, height := height, alt := alt, curRow := curRow, curCol := curCol)
    case ScrollMsg(first, lines) =>
      k.(lines := StoreLines(k.lines, first, lines))
  }

  function RowAt(rows: seq<Row>, y: nat): Row { if y < |rows| then rows[y] else [] }

  /** Each listed window row stored at its absolute index; an index outside the
      frame's rows travels as an empty row. */
  function StoreRows(store: map<nat, Row>, base: nat, changed: seq<nat>, rows: seq<Row>): map<nat, Row>
    decreases |changed|
  {
    if changed == [] then store
    else StoreRows(store[base + changed[0] := RowAt(rows, changed[0])], base, changed[1..], rows)
  }

  /** Line i of a scroll message stored at first + i. */
  function StoreLines(store: map<nat, Row>, first: nat, lines: seq<Row>): map<nat, Row>
    decreases |lines|
  {
    if lines == [] then store
    else StoreLines(store[first := lines[0]], first + 1, lines[1..])
  }

  lemma {:induction false} StoreRowsAt(store: map<nat, Row>, base: nat, changed: seq<nat>, rows: seq<Row>, y: nat)
    ensures var r := StoreRows(store, base, changed, rows);
            if y in changed then Holds(r, base + y, RowAt(rows, y))
            else (base + y in r <==> base + y in store) && (base + y in store ==> r[base + y] == store[base + y])
    decreases |changed|
  {
    if changed != [] {
      StoreRowsAt(store[base + changed[0] := RowAt(rows, changed[0])], base, changed[1..], rows, y);
    }
  }

  lemma {:induction false} StoreLinesAt(store: map<nat, Row>, first: nat, lines: seq<Row>, i: nat)
    ensures var r := StoreLines(store, first, lines);
            if first <= i < first + |lines| then Holds(r, i, lines[i - first])
            else (i in r <==> i in store) && (i in store ==> r[i] == store[i])
    decreases |lines|
  {
    if lines != [] {
      StoreLinesAt(store[first := lines[0]], first + 1, lines[1..], i);
    }
  }

  lemma {:induction false} StoreLinesConcat(store: map<nat, Row>, first: nat, a: seq<Row>, b: seq<Row>)
    ensures StoreLines(StoreLines(store, first, a), first + |a|, b) == StoreLines(store, first, a + b)
    decreases |a|
  {
    if a == [] {
      assert a + b == b;
    } else {
      StoreLinesConcat(store[first := a[0]], first + 1, a[1..], b);
      assert (a + b)[1..] == a[1..] + b;
    }
  }

  function ApplyAll(k: Client, ps: seq<Payload>): Client
    decreases |ps|
  {
    if ps == [] then k else ApplyAll(Apply(k, ps[0]), ps[1..])
  }

  lemma {:induction false} ApplyAllConcat(k: Client, a: seq<Payload>, b: seq<Payload>)
    ensures ApplyAll(k, a + b) == ApplyAll(ApplyAll(k, a), b)
    decreases |a|
  {
    if a == [] {
      assert a + b == b;
    } else {
      assert (a + b)[1..] == a[1..] + b;
      ApplyAllConcat(Apply(k, a[0]), a[1..], b);
    }
  }

  predicate Holds(store: map<nat, Row>, i: nat, row: Row) { i in store && store[i] == row }

  /** The client displays exactly this picture. */
  ghost predicate Shows(k: Client, p: Picture) {
    k.modes == Some(p.modes) && k.title == Some(p.title) && ShowsWindow(k, p)
  }

  /** The window, cursor and alternate-screen half of a picture. */
  ghost predicate ShowsWindow(k: Client, p: Picture) {
    && k.base == p.base && k.height == |p.rows| && k.alt == p.alt
    && k.curRow == p.curRow && k.curCol == p.curCol
    && forall y: nat :: y < |p.rows| ==> Holds(k.lines, p.base + y, p.rows[y])
  }

  // --- payload sequences ----------------------------------------------------------

  /** Lines split into scroll messages of at most `n` lines, each carrying the
      absolute index of its first line. */
  function Chunks(first: nat, lines: seq<Row>, n: nat): seq<Payload>
    requires n > 0
    decreases |lines|
  {
    if lines == [] then []
    else
      var m := Min(n, |lines|);
      [ScrollMsg(first, lines[..m])] + Chunks(first + m, lines[m..], n)
  }

  /** No chunk is empty or longer than the limit, so a line count always fits its
      16-bit field. */
  lemma {:induction false} ChunksFit(first: nat, lines: seq<Row>, n: nat)
    requires n > 0
    ensures forall p :: p in Chunks(first, lines, n) ==> p.ScrollMsg? && 0 < |p.lines| <= n
    decreases |lines|
  {
    if lines != [] {
      var m := Min(n, |lines|);
      ChunksFit(first + m, lines[m..], n);
    }
  }

  const SCROLL_CHUNK := 1000
  const REPLAY_CHUNK := 50

  function OptModes(m: Option<Modes>): seq<Payload> { if m.None? then [] else [ModesMsg(m.value)] }

  function OptTitle(t: Option<string>): seq<Payload> { if t.None? then [] else [TitleMsg(t.value)] }

  function OptClip(t: Option<seq<nat>>): seq<Payload> { if t.None? then [] else [ClipboardMsg(t.value)] }

  function ScreenPart(f: Frame): seq<Payload> {
    if f.changed == [] then []
    else [ScreenMsg(f.base, |f.rows|, f.curRow, f.curCol, f.alt, f.cleared, f.changed, f.rows)]
  }

  /** The dispatch sequence: modes, title, clipboard, screen, scroll chunks. */
  function FramePayloads(f: Frame): seq<Payload> {
    OptModes(f.modes) + OptTitle(f.title) + OptClip(f.clipboard) + ScreenPart(f)
    + Chunks(f.scrollFirst, f.scroll, SCROLL_CHUNK)
  }

  /** What survives a resume-generation mismatch. */
  function DurablePayloads(f: Frame): seq<Payload> {
    OptClip(f.clipboard) + Chunks(f.scrollFirst, f.scroll, SCROLL_CHUNK)
  }

  function AllRows(n: nat): (r: seq<nat>)
    ensures forall y: nat :: y in r <==> y < n
  {
    if n == 0 then [] else AllRows(n - 1) + [n - 1]
  }

  function Window(p: Picture): Payload {
    ScreenMsg(p.base, |p.rows|, p.curRow, p.curCol, p.alt, false, AllRows(|p.rows|), p.rows)
  }

  /** A resume batch: modes and title, then window and replay in the order the
      live alternate-screen state dictates. */
  function BatchPayloads(p: Picture, first: nat, replay: seq<Row>): seq<Payload> {
    var chunks := Chunks(first, replay, REPLAY_CHUNK);
    [ModesMsg(p.modes), TitleMsg(p.title)]
    + (if p.alt then chunks + [Window(p)] else [Window(p)] + chunks)
  }

  // --- what the sequences do ---------------------------------------------------------

  /** Chunked scroll lines only touch the store, exactly at their own indices. */
  lemma {:induction false} ApplyChunks(k: Client, first: nat, lines: seq<Row>, n: nat)
    requires n > 0
    ensures ApplyAll(k, Chunks(first, lines, n)) == k.(lines := StoreLines(k.lines, first, lines))
    decreases |lines|
  {
    if lines == [] {
      assert StoreLines(k.lines, first, lines) == k.lines;
    } else {
      var m := Min(n, |lines|);
      var head, tail := lines[..m], lines[m..];
      var k1 := Apply(k, ScrollMsg(first, head));
      var rest := Chunks(first + m, tail, n);
      var all := Chunks(first, lines, n);
      assert all[0] == ScrollMsg(first, head) && all[1..] == rest;
      assert ApplyAll(k, all) == ApplyAll(k1, rest);
      ApplyChunks(k1, first + m, tail, n);
      StoreLinesConcat(k.lines, first, head, tail);
      assert head + tail == lines;
    }
  }

  lemma ShowsBelow(k: Client, p: Picture, first: nat, lines: seq<Row>)
    requires Shows(k, p) && first + |lines| <= p.base
    ensures Shows(k.(lines := StoreLines(k.lines, first, lines)), p)
  {
    forall y: nat | y < |p.rows| ensures Holds(StoreLines(k.lines, first, lines), p.base + y, p.rows[y]) {
      assert Holds(k.lines, p.base + y, p.rows[y]);
      StoreLinesAt(k.lines, first, lines, p.base + y);
    }
  }

  /** Durable payloads below the window leave the displayed picture alone. */
  lemma DurableKeepsPicture(k: Client, f: Frame, p: Picture)
    requires Shows(k, p) && f.scrollFirst + |f.scroll| <= p.base
    ensures Shows(ApplyAll(k, DurablePayloads(f)), p)
  {
    ApplyAllConcat(k, OptClip(f.clipboard), Chunks(f.scrollFirst, f.scroll, SCROLL_CHUNK));
    assert ApplyAll(k, OptClip(f.clipboard)) == k;
    ApplyChunks(k, f.scrollFirst, f.scroll, SCROLL_CHUNK);
    ShowsBelow(k, p, f.scrollFirst, f.scroll);
  }

  /** The effect of a whole dispatch sequence, field by field. */
  lemma ApplyFrame(k: Client, f: Frame)
    ensures var k1 := k.(modes := if f.modes.Some? then f.modes else k.modes,
                         title := if f.title.Some? then f.title else k.title);
            var k2 := ApplyAll(k1, ScreenPart(f));
            ApplyAll(k, FramePayloads(f)) == k2.(lines := StoreLines(k2.lines, f.scrollFirst, f.scroll))
  {
    var m, t, c, s := OptModes(f.modes), OptTitle(f.title), OptClip(f.clipboard), ScreenPart(f);
    var chunks := Chunks(f.scrollFirst, f.scroll, SCROLL_CHUNK);
    ApplyAllConcat(k, m + t + c + s, chunks);
    ApplyAllConcat(k, m + t + c, s);
    ApplyAllConcat(k, m + t, c);
    ApplyAllConcat(k, m, t);
    var k1 := ApplyAll(k, m + t + c);
    var k2 := ApplyAll(k1, s);
    ApplyChunks(k2, f.scrollFirst, f.scroll, SCROLL_CHUNK);
  }

  /** A resume batch leaves the client displaying the snapshot, whatever it held. */
  lemma BatchShows(k: Client, p: Picture, first: nat, replay: seq<Row>)
    requires first + |replay| <= p.base
    ensures Shows(ApplyAll(k, BatchPayloads(p, first, replay)), p)
  {
    var head := [ModesMsg(p.modes), TitleMsg(p.title)];
    var chunks := Chunks(first, replay, REPLAY_CHUNK);
    var k1 := Apply(Apply(k, head[0]), head[1]);
    assert head[1..] == [head[1]];
    assert ApplyAll(k, head) == k1 by {
      assert ApplyAll(Apply(k, head[0]), [head[1]]) == ApplyAll(k1, []);
    }
    if p.alt {
      ApplyAllConcat(k, head, chunks + [Window(p)]);
      ApplyAllConcat(k1, chunks, [Window(p)]);
      ApplyChunks(k1, first, replay, REPLAY_CHUNK);
      var k2 := ApplyAll(k1, chunks);
      WindowShows(k2, p);
    } else {
      ApplyAllConcat(k, head, [Window(p)] + chunks);
      ApplyAllConcat(k1, [Window(p)], chunks);
      WindowShows(k1, p);
      var k2 := ApplyAll(k1, [Window(p)]);
      ApplyChunks(k2, first, replay, REPLAY_CHUNK);
      ShowsBelow(k2, p, first, replay);
    }
  }

  lemma WindowShows(k: Client, p: Picture)
    requires k.modes == Some(p.modes) && k.title == Some(p.title)
    ensures Shows(ApplyAll(k, [Window(p)]), p)
  {
    assert ApplyAll(k, [Window(p)]) == Apply(k, Window(p));
    var k1 := Apply(k, Window(p));
    assert k1.lines == StoreRows(k.lines, p.base, AllRows(|p.rows|), p.rows);
    forall y: nat | y < |p.rows| ensures Holds(k1.lines, p.base + y, p.rows[y]) {
      StoreRowsAt(k.lines, p.base, AllRows(|p.rows|), p.rows, y);
    }
  }

  /** The heart of the protocol: a frame that carries only what differs from the
      shared cache still turns any client that agrees with the cache (or any
      client at all, when the cache is blank) into one showing the whole picture. */
  lemma DiffIsEnough(c: Cache, s: Screen, committed: nat, k: Client, extra: seq<nat>, clip: Option<seq<nat>>, cleared: bool)
    requires s.Valid()
    requires Blank(c) || (Complete(c, |s.rows|) && Shows(k, CachePicture(c)))
    requires Build(c, s, true, false, committed).frame.Some?
    requires forall y: nat :: y in Build(c, s, true, false, committed).frame.value.changed ==> y in extra
    ensures var f := Build(c, s, true, false, committed).frame.value;
            Shows(ApplyAll(k, FramePayloads(f.(changed := extra, clipboard := clip, cleared := cleared))),
                  PictureOf(s, committed + |Committable(c, s)|))
  {
    var f0 := Build(c, s, true, false, committed).frame.value;
    var f := f0.(changed := extra, clipboard := clip, cleared := cleared);
    BuildIsFrameOf(c, s, committed);
    assert FrameOf(c, AltSettled(c, s.alt), s, f) by {
      if extra == [] { SubsetOfNothing(f0.changed); }
    }
    FrameShows(c, AltSettled(c, s.alt), s, k, f);
  }

  lemma BuildIsFrameOf(c: Cache, s: Screen, committed: nat)
    requires Build(c, s, true, false, committed).frame.Some?
    ensures FrameOf(c, AltSettled(c, s.alt), s, Build(c, s, true, false, committed).frame.value)
  {
    var f := Build(c, s, true, false, committed).frame.value;
    var c1 := AltSettled(c, s.alt);
    var d := Diff(c1, s.rows, f.base, |s.rows|);
    var moved := CursorRows(c1, d, |s.rows|, s.curRow, s.curCol);
    assert f.changed == if s.bell then AppendRowIfMissing(moved, s.curRow, |s.rows|) else moved;
    assert forall y: nat :: y in d ==> y in moved;
    assert forall y: nat :: y in moved ==> y in f.changed;
    if f.changed == [] { SubsetOfNothing(moved); }
  }

  /** The frame relates to the cache it was diffed against and to the screen. */
  ghost predicate FrameOf(c: Cache, c1: Cache, s: Screen, f: Frame) {
    && c1 == AltSettled(c, s.alt)
    && f.rows == s.rows && f.alt == s.alt && f.curRow == s.curRow && f.curCol == s.curCol
    && f.scrollFirst + |f.scroll| == f.base
    && f.modes == (if ModesStable(c1, s) then None else Some(s.modes))
    && f.title == (if TitleStable(c1, s) then None else Some(s.title))
    && (forall y: nat :: y in Diff(c1, s.rows, f.base, |s.rows|) ==> y in f.changed)
    && (f.changed == [] ==>
          CursorRows(c1, Diff(c1, s.rows, f.base, |s.rows|), |s.rows|, s.curRow, s.curCol) == [])
  }

  lemma FrameShows(c: Cache, c1: Cache, s: Screen, k: Client, f: Frame)
    requires s.Valid() && FrameOf(c, c1, s, f)
    requires Blank(c) || (Complete(c, |s.rows|) && Shows(k, CachePicture(c)))
    ensures Shows(ApplyAll(k, FramePayloads(f)), PictureOf(s, f.base))
  {
    var pic := PictureOf(s, f.base);
    ApplyFrame(k, f);
    var k1 := k.(modes := if f.modes.Some? then f.modes else k.modes,
                 title := if f.title.Some? then f.title else k.title);
    assert k1.modes == Some(pic.modes) && k1.title == Some(pic.title);
    var k2 := ApplyAll(k1, ScreenPart(f));
    assert Shows(k2, pic) by { ScreenPartShows(c, c1, s, k1, f); }
    ShowsBelow(k2, pic, f.scrollFirst, f.scroll);
  }

  lemma SubsetOfNothing(d: seq<nat>)
    ensures d == [] || exists y: nat :: y in d
  {
    if d != [] { assert d[0] in d; }
  }

  lemma ScreenPartShows(c: Cache, c1: Cache, s: Screen, k: Client, f: Frame)
    requires s.Valid() && FrameOf(c, c1, s, f)
    requires Blank(c) || (Complete(c, |s.rows|) && ShowsWindow(k, CachePicture(c)))
    requires k.modes == Some(s.modes) && k.title == Some(s.title)
    ensures Shows(ApplyAll(k, ScreenPart(f)), PictureOf(s, f.base))
  {
    if f.changed == [] {
      assert Diff(c1, s.rows, f.base, |s.rows|) == [] by {
        SubsetOfNothing(Diff(c1, s.rows, f.base, |s.rows|));
      }
      NoScreenPart(c, c1, s, f.base, Diff(c1, s.rows, f.base, |s.rows|));
      SamePicture(c, s, k, f.base);
    } else {
      SentScreenPart(c, c1, s, k, f);
    }
  }

  lemma SamePicture(c: Cache, s: Screen, k: Client, base: nat)
    requires ShowsWindow(k, CachePicture(c))
    requires base == c.prevBase && s.rows == c.prevRows && s.alt == c.prevAlt
    requires s.curRow == c.prevCurRow && s.curCol == c.prevCurCol
    ensures ShowsWindow(k, PictureOf(s, base))
  {
  }

  lemma SentScreenPart(c: Cache, c1: Cache, s: Screen, k: Client, f: Frame)
    requires s.Valid() && FrameOf(c, c1, s, f) && f.changed != []
    requires Blank(c) || (Complete(c, |s.rows|) && ShowsWindow(k, CachePicture(c)))
    ensures ShowsWindow(ApplyAll(k, ScreenPart(f)), PictureOf(s, f.base))
    ensures var k2 := ApplyAll(k, ScreenPart(f)); k2.modes == k.modes && k2.title == k.title
  {
    var msg := ScreenPart(f)[0];
    var k2 := Apply(k, msg);
    assert ScreenPart(f) == [msg] && ApplyAll(k, [msg]) == k2;
    forall y: nat | y < |s.rows| ensures Holds(k2.lines, f.base + y, s.rows[y]) {
      RowArrives(c, c1, s, k, f.base, f.changed, f.cleared, y);
    }
  }

  /** A window row is either in the frame or already held, whatever older
      history an erase drops. */
  lemma RowArrives(c: Cache, c1: Cache, s: Screen, k: Client, base: nat, extra: seq<nat>, cleared: bool, y: nat)
    requires c1 == AltSettled(c, s.alt) && y < |s.rows|
    requires Blank(c) || (Complete(c, |s.rows|)
                          && forall z: nat :: z < |c.prevRows| ==> Holds(k.lines, c.prevBase + z, c.prevRows[z]))
    requires forall z: nat :: z in Diff(c1, s.rows, base, |s.rows|) ==> z in extra
    ensures var kept := if cleared then map i | i in k.lines && base <= i :: k.lines[i] else k.lines;
            Holds(StoreRows(kept, base, extra, s.rows), base + y, s.rows[y])
  {
    var kept := if cleared then map i | i in k.lines && base <= i :: k.lines[i] else k.lines;
    StoreRowsAt(kept, base, extra, s.rows, y);
    if y !in extra {
      assert y !in Diff(c1, s.rows, base, |s.rows|);
      assert c1.Unchanged(base + y, s.rows[y]);
      assert c1 == c;
      var z: nat := base + y - c.prevBase;
      assert Holds(k.lines, c.prevBase + z, c.prevRows[z]);
    }
  }

  /** With an empty diff the window, cursor and alternate flag are the cached ones. */
  lemma NoScreenPart(c: Cache, c1: Cache, s: Screen, base: nat, d: seq<nat>)
    requires s.Valid() && c1 == AltSettled(c, s.alt)
    requires Blank(c) || Complete(c, |s.rows|)
    requires d == Diff(c1, s.rows, base, |s.rows|) == []
    requires CursorRows(c1, d, |s.rows|, s.curRow, s.curCol) == []
    ensures c1 == c && Complete(c, |s.rows|)
    ensures base == c.prevBase && s.rows == c.prevRows && s.alt == c.prevAlt
    ensures s.curRow == c.prevCurRow && s.curCol == c.prevCurCol
  {
    NothingChanged(c1, s.rows, base, |s.rows|);
    assert c1 == c;
    assert s.curRow in AppendRowIfMissing(AppendRowIfMissing(d, c.prevCurRow, |s.rows|), s.curRow, |s.rows|);
  }
}
