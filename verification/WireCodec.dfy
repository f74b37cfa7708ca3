/** The binary layout of rows, screen frames and scroll frames: its exact sizes, the
    bounds that keep a history page within its budget, and a decoder that inverts it. */
module WireCodec {
  import opened Prelude

  type Byte = b: nat | b < 256
  type Bytes = seq<Byte>

  /** A run as it is encoded: strings are the bytes the program keeps them in. */
  datatype Run = Run(text: Bytes, url: Bytes, fg: int, bg: int, uc: int, attrs: nat)

  const MSG_SCREEN: Byte := 0
  const MSG_SCROLL: Byte := 1
  const MAX_U16 := 0xFFFF
  const ROW_COUNT_SIZE := 2
  const RUN_FIXED_SIZE := 18
  const SCROLL_HEADER_SIZE := 19
  const PAGE_BYTE_BUDGET := 262144
  const ROW_BYTE_CEILING := PAGE_BYTE_BUDGET - SCROLL_HEADER_SIZE
  const AUTOLINK := 1024
  const MAX_COLUMNS := 1000

  // --- UTF-8 (RFC 3629) -------------------------------------------------------------------

  predicate Continues(b: Byte) { 0x80 <= b < 0xC0 }

  /** The length of the well-formed sequence at the head of `s`, 0 if there is none. */
  function Lead(s: Bytes): (n: nat)
    requires s != []
    ensures n <= 4 && n <= |s|
  {
    var b := s[0];
    if b < 0x80 then 1
    else if 0xC2 <= b < 0xE0 && |s| >= 2 && Continues(s[1]) then 2
    else if 0xE0 <= b < 0xF0 && |s| >= 3 && Continues(s[1]) && Continues(s[2])
            && (b == 0xE0 ==> s[1] >= 0xA0) && (b == 0xED ==> s[1] < 0xA0) then 3
    else if 0xF0 <= b < 0xF5 && |s| >= 4 && Continues(s[1]) && Continues(s[2]) && Continues(s[3])
            && (b == 0xF0 ==> s[1] >= 0x90) && (b == 0xF4 ==> s[1] < 0x90) then 4
    else 0
  }

  predicate ValidUtf8(s: Bytes)
    decreases |s|
  {
    s == [] || (Lead(s) > 0 && ValidUtf8(s[Lead(s)..]))
  }

  /** The longest well-formed prefix that is no longer than `n`. */
  function LongestValid(s: Bytes, n: nat): (r: nat)
    requires n <= |s|
    ensures r <= n && ValidUtf8(s[..r])
    ensures forall k :: r < k <= n ==> !ValidUtf8(s[..k])
  {
    if n == 0 || ValidUtf8(s[..n]) then n else LongestValid(s, n - 1)
  }

  function Truncated(s: Bytes): Bytes {
    if |s| <= MAX_U16 then s else s[..LongestValid(s, MAX_U16)]
  }

  method TruncateUTF8(s: Bytes) returns (t: Bytes)
    ensures t == Truncated(s)
  {
    if |s| <= MAX_U16 { return s; }
    t := s[..MAX_U16];
    while t != [] && !ValidUtf8(t)
      invariant |t| <= MAX_U16 && t == s[..|t|]
      invariant LongestValid(s, MAX_U16) == LongestValid(s, |t|)
    {
      t := t[..|t| - 1];
    }
  }

  lemma TruncatedFits(s: Bytes)
    ensures |Truncated(s)| <= MAX_U16 && |Truncated(s)| <= |s|
  {}

  // --- little-endian numbers -----------------------------------------------------------------

  function Le(n: nat, k: nat): (b: Bytes)
    ensures |b| == k
  {
    if k == 0 then [] else [n % 256] + Le(n / 256, k - 1)
  }

  function UnLe(b: Bytes): nat { if b == [] then 0 else b[0] + 256 * UnLe(b[1..]) }

  function Limit(k: nat): nat { if k == 0 then 1 else 256 * Limit(k - 1) }

  lemma {:induction false} LeInverts(n: nat, k: nat)
    requires n < Limit(k)
    ensures UnLe(Le(n, k)) == n
    decreases k
  {
    if k > 0 { LeInverts(n / 256, k - 1); }
  }

  lemma Limits()
    ensures Limit(2) == 0x1_0000 && Limit(4) == 0x1_0000_0000 && Limit(8) == 0x1_0000_0000_0000_0000
  {
    assert Limit(1) == 256;
    assert Limit(3) == 256 * Limit(2);
    assert Limit(5) == 256 * Limit(4);
    assert Limit(6) == 256 * Limit(5);
    assert Limit(7) == 256 * Limit(6);
  }

  function Clamp16(n: nat): nat { if n > MAX_U16 then MAX_U16 else n }

  /** A signed 32-bit number as the unsigned one with its bits, and back. */
  function Bits32(v: int): nat { v % 0x1_0000_0000 }

  function Signed32(n: nat): int { if n < 0x8000_0000 then n else n - 0x1_0000_0000 }

  predicate Int32(v: int) { -0x8000_0000 <= v < 0x8000_0000 }

  lemma BitsInvert(v: int)
    requires Int32(v)
    ensures Bits32(v) < 0x1_0000_0000 && Signed32(Bits32(v)) == v
  {}

  // --- encoding and decoding lists ----------------------------------------------------------

  /** The encodings of a list, one after the other. */
  function Cat<T>(f: T -> Bytes, xs: seq<T>): Bytes { if xs == [] then [] else f(xs[0]) + Cat(f, xs[1..]) }

  function Sum<T>(size: T -> nat, xs: seq<T>): nat {
    if xs == [] then 0 else Sum(size, xs[..|xs| - 1]) + size(xs[|xs| - 1])
  }

  function Map<T, U>(g: T -> U, xs: seq<T>): seq<U> { if xs == [] then [] else [g(xs[0])] + Map(g, xs[1..]) }

  datatype Read<T> = Ok(value: T, rest: Bytes) | Short

  /** `n` values, each read from where the one before it ended. */
  function ReadAll<T>(read: Bytes -> Read<T>, b: Bytes, n: nat): Read<seq<T>>
    decreases n
  {
    if n == 0 then Ok([], b)
    else
      match read(b)
      case Short => Short
      case Ok(x, rest) =>
        match ReadAll(read, rest, n - 1)
        case Short => Short
        case Ok(more, rest2) => Ok([x] + more, rest2)
  }

  lemma Regroup(a: Bytes, b: Bytes, c: Bytes)
    ensures a + (b + c) == (a + b) + c
  {}

  lemma {:induction false} CatSnoc<T>(f: T -> Bytes, xs: seq<T>, x: T)
    ensures Cat(f, xs + [x]) == Cat(f, xs) + f(x)
    decreases |xs|
  {
    var all := xs + [x];
    if xs == [] {
      assert all[1..] == [];
      assert f(x) + [] == f(x);
    } else {
      assert all[1..] == xs[1..] + [x];
      CatSnoc(f, xs[1..], x);
      Regroup(f(xs[0]), Cat(f, xs[1..]), f(x));
    }
  }

  /** Appending one more of a list. */
  lemma CatStep<T>(buf: Bytes, f: T -> Bytes, xs: seq<T>, i: nat)
    requires i < |xs|
    ensures (buf + Cat(f, xs[..i])) + f(xs[i]) == buf + Cat(f, xs[..i + 1])
  {
    CatSnoc(f, xs[..i], xs[i]);
    assert xs[..i + 1] == xs[..i] + [xs[i]];
    Regroup(buf, Cat(f, xs[..i]), f(xs[i]));
  }

  lemma SumSnoc<T>(size: T -> nat, xs: seq<T>, x: T)
    ensures Sum(size, xs + [x]) == Sum(size, xs) + size(x)
  {
    assert (xs + [x])[..|xs|] == xs;
  }

  lemma FirstOnly<T>(size: T -> nat, xs: seq<T>)
    requires xs != []
    ensures Sum(size, xs[..1]) == size(xs[0])
    ensures |xs| > 1 ==> Sum(size, xs[..2]) >= Sum(size, xs[..1])
  {
    var none: seq<T> := [];
    SumSnoc(size, none, xs[0]);
    assert xs[..1] == none + [xs[0]];
    if |xs| > 1 {
      SumSnoc(size, xs[..1], xs[1]);
      assert xs[..2] == xs[..1] + [xs[1]];
    }
  }

  lemma {:induction false} CatSize<T(!new)>(f: T -> Bytes, size: T -> nat, xs: seq<T>)
    requires forall x :: |f(x)| == size(x)
    ensures |Cat(f, xs)| == Sum(size, xs)
    decreases |xs|
  {
    if xs != [] {
      var n := |xs| - 1;
      CatSize(f, size, xs[..n]);
      CatSnoc(f, xs[..n], xs[n]);
      assert xs[..n] + [xs[n]] == xs;
    }
  }

  /** If one value reads back, so does a list. */
  lemma {:induction false} ListReads<T(!new), U>(f: T -> Bytes, g: T -> U, read: Bytes -> Read<U>, ok: T -> bool, xs: seq<T>, rest: Bytes)
    requires forall x, r :: ok(x) ==> read(f(x) + r) == Ok(g(x), r)
    requires forall i :: 0 <= i < |xs| ==> ok(xs[i])
    ensures ReadAll(read, Cat(f, xs) + rest, |xs|) == Ok(Map(g, xs), rest)
    decreases |xs|
  {
    if xs == [] {
      assert [] + rest == rest;
    } else {
      var tail := Cat(f, xs[1..]);
      Regroup(f(xs[0]), tail, rest);
      assert read(f(xs[0]) + (tail + rest)) == Ok(g(xs[0]), tail + rest);
      ListReads(f, g, read, ok, xs[1..], rest);
    }
  }

  // --- runs -------------------------------------------------------------------------------------

  function StringBytes(s: Bytes): Bytes { Le(|Truncated(s)|, 2) + Truncated(s) }

  /** Colours and attributes: fourteen bytes. */
  function LookBytes(r: Run): (b: Bytes)
    ensures |b| == 14
  {
    Le(Bits32(r.fg), 4) + Le(Bits32(r.bg), 4) + Le(r.attrs, 2) + Le(Bits32(r.uc), 4)
  }

  function RunBytes(r: Run): Bytes { StringBytes(r.text) + LookBytes(r) + StringBytes(r.url) }

  function RunSize(r: Run): nat { RUN_FIXED_SIZE + |Truncated(r.text)| + |Truncated(r.url)| }

  function RunsSize(runs: seq<Run>): nat { Sum(RunSize, runs) }

  function RowSize(runs: seq<Run>): nat { ROW_COUNT_SIZE + RunsSize(runs) }

  method EncodedRowSize(runs: seq<Run>) returns (size: nat)
    ensures size == RowSize(runs)
  {
    size := ROW_COUNT_SIZE;
    for i := 0 to |runs|
      invariant size == RowSize(runs[..i])
    {
      var text := TruncateUTF8(runs[i].text);
      var url := TruncateUTF8(runs[i].url);
      size := size + RUN_FIXED_SIZE + |text| + |url|;
      assert runs[..i + 1][..i] == runs[..i];
    }
    assert runs[..|runs|] == runs;
  }

  function Unlinked(r: Run): Run {
    r.(url := [], attrs := if r.attrs / AUTOLINK % 2 == 1 then r.attrs - AUTOLINK else r.attrs)
  }

  function Stripped(runs: seq<Run>): seq<Run> { Map(Unlinked, runs) }

  method StripRowURIs(runs: seq<Run>) returns (out: seq<Run>)
    ensures out == Stripped(runs)
  {
    out := [];
    assert runs[0..] == runs;
    for i := 0 to |runs|
      invariant out + Map(Unlinked, runs[i..]) == Map(Unlinked, runs)
    {
      assert runs[i..][1..] == runs[i + 1..];
      out := out + [Unlinked(runs[i])];
    }
  }

  // --- rows -------------------------------------------------------------------------------------

  /** The row as it is sent: without its links if it would not fit a reply of its own. */
  function Capped(runs: seq<Run>): seq<Run> { if RowSize(runs) <= ROW_BYTE_CEILING then runs else Stripped(runs) }

  method CapRowRuns(runs: seq<Run>) returns (capped: seq<Run>)
    ensures capped == Capped(runs)
  {
    var size := EncodedRowSize(runs);
    if size <= ROW_BYTE_CEILING { return runs; }
    capped := StripRowURIs(runs);
  }

  function RowBytes(runs: seq<Run>): Bytes { Le(Clamp16(|Capped(runs)|), 2) + Cat(RunBytes, Capped(runs)) }

  function SentSize(runs: seq<Run>): nat { RowSize(Capped(runs)) }

  lemma RunSizeIsExact(r: Run)
    ensures |RunBytes(r)| == RunSize(r)
  {}

  /** The size computed for a row is exactly the number of bytes appended for it. */
  lemma RowSizeIsExact(runs: seq<Run>)
    ensures |RowBytes(runs)| == SentSize(runs)
  {
    forall r ensures |RunBytes(r)| == RunSize(r) { RunSizeIsExact(r); }
    CatSize(RunBytes, RunSize, Capped(runs));
  }

  method AppendRowRuns(buf: Bytes, runs: seq<Run>) returns (out: Bytes)
    ensures out == buf + RowBytes(runs)
  {
    var capped := CapRowRuns(runs);
    var count := Le(Clamp16(|capped|), 2);
    out := AppendRuns(buf + count, capped);
    Regroup(buf, count, Cat(RunBytes, capped));
  }

  method AppendRuns(buf: Bytes, runs: seq<Run>) returns (out: Bytes)
    ensures out == buf + Cat(RunBytes, runs)
  {
    out := buf;
    for i := 0 to |runs|
      invariant out == buf + Cat(RunBytes, runs[..i])
    {
      out := AppendRun(out, runs[i]);
      CatStep(buf, RunBytes, runs, i);
    }
    assert runs[..|runs|] == runs;
  }

  method AppendRun(buf: Bytes, r: Run) returns (out: Bytes)
    ensures out == buf + RunBytes(r)
  {
    var text := TruncateUTF8(r.text);
    out := buf + Le(|text|, 2);
    out := out + text;
    Regroup(buf, Le(|text|, 2), text);
    var before := out;
    out := out + Le(Bits32(r.fg), 4);
    out := out + Le(Bits32(r.bg), 4);
    out := out + Le(r.attrs, 2);
    out := out + Le(Bits32(r.uc), 4);
    assert out == before + LookBytes(r);
    Regroup(buf, StringBytes(r.text), LookBytes(r));
    before := out;
    var url := TruncateUTF8(r.url);
    out := out + Le(|url|, 2);
    out := out + url;
    Regroup(before, Le(|url|, 2), url);
    Regroup(buf, StringBytes(r.text) + LookBytes(r), StringBytes(r.url));
  }

  // --- bounds ---------------------------------------------------------------------------------

  function TextSize(r: Run): nat { |Truncated(r.text)| }

  lemma {:induction false} MapSnoc<T, U>(g: T -> U, xs: seq<T>, x: T)
    ensures Map(g, xs + [x]) == Map(g, xs) + [g(x)]
    decreases |xs|
  {
    if xs != [] {
      assert (xs + [x])[1..] == xs[1..] + [x];
      MapSnoc(g, xs[1..], x);
    }
  }

  lemma {:induction false} StrippedSize(runs: seq<Run>)
    ensures |Stripped(runs)| == |runs|
    ensures RunsSize(Stripped(runs)) == RUN_FIXED_SIZE * |runs| + Sum(TextSize, runs)
    decreases |runs|
  {
    if runs != [] {
      var n := |runs| - 1;
      StrippedSize(runs[..n]);
      MapSnoc(Unlinked, runs[..n], runs[n]);
      assert runs[..n] + [runs[n]] == runs;
      SumSnoc(RunSize, Stripped(runs[..n]), Unlinked(runs[n]));
    }
  }

  /** A row of the grid: no more runs than columns, no more than four bytes a column. */
  predicate GridRow(runs: seq<Run>) { |runs| <= MAX_COLUMNS && Sum(TextSize, runs) <= 4 * MAX_COLUMNS }

  /** Every row of the grid fits a reply of its own once capped. */
  lemma GridRowFits(runs: seq<Run>)
    requires GridRow(runs)
    ensures SentSize(runs) <= ROW_BYTE_CEILING
  {
    StrippedSize(runs);
  }

  function LinesSize(lines: seq<seq<Run>>): nat { Sum(SentSize, lines) }

  /** How many leading lines fit a page: as many as the budget holds, but at least one. */
  method ShrinkToBudget(lines: seq<seq<Run>>) returns (n: nat)
    ensures n <= |lines| && (lines != [] ==> n >= 1)
    ensures n == |lines| || SCROLL_HEADER_SIZE + LinesSize(lines[..n + 1]) > PAGE_BYTE_BUDGET
    ensures n != 1 || SentSize(lines[0]) <= ROW_BYTE_CEILING ==> SCROLL_HEADER_SIZE + LinesSize(lines[..n]) <= PAGE_BYTE_BUDGET
  {
    var size := SCROLL_HEADER_SIZE;
    for i := 0 to |lines|
      invariant size == SCROLL_HEADER_SIZE + LinesSize(lines[..i]) <= PAGE_BYTE_BUDGET
    {
      var capped := CapRowRuns(lines[i]);
      var row := EncodedRowSize(capped);
      size := size + row;
      assert lines[..i + 1][..i] == lines[..i];
      if size > PAGE_BYTE_BUDGET {
        if i == 0 {
          FirstOnly(SentSize, lines);
          return 1;
        }
        return i;
      }
    }
    assert lines[..|lines|] == lines;
    return |lines|;
  }

  // --- frames -----------------------------------------------------------------------------------

  datatype Scroll = Scroll(ack: nat, first: nat, lines: seq<seq<Run>>)

  /** How every frame starts: its type, the input ack, an absolute index. */
  function Opening(tag: Byte, ack: nat, index: nat): (b: Bytes)
    ensures |b| == 17
  {
    [tag] + Le(ack, 8) + Le(index, 8)
  }

  lemma OpeningReads(tag: Byte, ack: nat, index: nat, rest: Bytes)
    requires ack < Limit(8) && index < Limit(8)
    ensures
      var b := Opening(tag, ack, index) + rest;
      b[0] == tag && UnLe(b[1..9]) == ack && UnLe(b[9..17]) == index && b[17..] == rest
  {
    LeInverts(ack, 8);
    LeInverts(index, 8);
    OpeningParts(tag, Le(ack, 8), Le(index, 8), rest);
  }

  lemma OpeningParts(tag: Byte, x: Bytes, y: Bytes, rest: Bytes)
    requires |x| == |y| == 8
    ensures var b := [tag] + x + y + rest; b[0] == tag && b[1..9] == x && b[9..17] == y && b[17..] == rest
  {}

  function ScrollHeader(ack: nat, first: nat, count: nat): (b: Bytes)
    ensures |b| == SCROLL_HEADER_SIZE
  {
    Opening(MSG_SCROLL, ack, first) + Le(count, 2)
  }

  function EncodeScroll(f: Scroll): Bytes {
    ScrollHeader(f.ack, f.first, Clamp16(|f.lines|)) + Cat(RowBytes, f.lines)
  }

  method AppendRows(buf: Bytes, lines: seq<seq<Run>>) returns (out: Bytes)
    ensures out == buf + Cat(RowBytes, lines)
  {
    out := buf;
    for i := 0 to |lines|
      invariant out == buf + Cat(RowBytes, lines[..i])
    {
      out := AppendRowRuns(out, lines[i]);
      CatStep(buf, RowBytes, lines, i);
    }
    assert lines[..|lines|] == lines;
  }

  method EncodeScrollMsg(ack: nat, first: nat, lines: seq<seq<Run>>) returns (buf: Bytes)
    ensures buf == EncodeScroll(Scroll(ack, first, lines))
  {
    buf := [MSG_SCROLL];
    buf := buf + Le(ack, 8);
    buf := buf + Le(first, 8);
    assert buf == Opening(MSG_SCROLL, ack, first);
    buf := buf + Le(Clamp16(|lines|), 2);
    buf := AppendRows(buf, lines);
  }

  /** A scroll frame is its header and its rows, to the byte. */
  lemma ScrollSize(f: Scroll)
    ensures |EncodeScroll(f)| == SCROLL_HEADER_SIZE + LinesSize(f.lines)
  {
    forall row ensures |RowBytes(row)| == SentSize(row) { RowSizeIsExact(row); }
    CatSize(RowBytes, SentSize, f.lines);
  }

  /** The reply to a history request over rows of the grid: a prefix of the lines asked
      for, non-empty if any were retained, and within the page budget. */
  method HistoryReply(ack: nat, first: nat, lines: seq<seq<Run>>) returns (frame: Bytes, n: nat)
    requires forall i :: 0 <= i < |lines| ==> GridRow(lines[i])
    ensures n <= |lines| && (lines != [] ==> n >= 1)
    ensures frame == EncodeScroll(Scroll(ack, first, lines[..n])) && |frame| <= PAGE_BYTE_BUDGET
    ensures n == |lines| || SCROLL_HEADER_SIZE + LinesSize(lines[..n + 1]) > PAGE_BYTE_BUDGET
  {
    n := ShrinkToBudget(lines);
    if lines != [] { GridRowFits(lines[0]); }
    frame := EncodeScrollMsg(ack, first, lines[..n]);
    ScrollSize(Scroll(ack, first, lines[..n]));
  }

  // --- the decoder ----------------------------------------------------------------------------------

  function ReadBytes(b: Bytes, k: nat): Read<Bytes> { if |b| < k then Short else Ok(b[..k], b[k..]) }

  function ReadString(b: Bytes): Read<Bytes> {
    if |b| < 2 then Short else ReadBytes(b[2..], UnLe(b[..2]))
  }

  datatype Look = Look(fg: int, bg: int, attrs: nat, uc: int)

  function ReadLook(b: Bytes): Read<Look> {
    if |b| < 14 then Short
    else Ok(Look(Signed32(UnLe(b[..4])), Signed32(UnLe(b[4..8])), UnLe(b[8..10]), Signed32(UnLe(b[10..14]))), b[14..])
  }

  function ReadRun(b: Bytes): Read<Run> {
    match ReadString(b)
    case Short => Short
    case Ok(text, rest) =>
      match ReadLook(rest)
      case Short => Short
      case Ok(look, rest2) =>
        match ReadString(rest2)
        case Short => Short
        case Ok(url, rest3) => Ok(Run(text, url, look.fg, look.bg, look.uc, look.attrs), rest3)
  }

  function ReadRow(b: Bytes): Read<seq<Run>> {
    if |b| < 2 then Short else ReadAll(ReadRun, b[2..], UnLe(b[..2]))
  }

  function DecodeScroll(b: Bytes): Read<Scroll> {
    if |b| < SCROLL_HEADER_SIZE || b[0] != MSG_SCROLL then Short
    else
      match ReadAll(ReadRow, b[19..], UnLe(b[17..19]))
      case Short => Short
      case Ok(lines, rest) => Ok(Scroll(UnLe(b[1..9]), UnLe(b[9..17]), lines), rest)
  }

  // --- the round trip ---------------------------------------------------------------------------------

  /** What the fields of the layout can hold. */
  predicate Encodable(r: Run) { Int32(r.fg) && Int32(r.bg) && Int32(r.uc) && r.attrs <= MAX_U16 }

  predicate RowEncodable(row: seq<Run>) { |row| <= MAX_U16 && forall i :: 0 <= i < |row| ==> Encodable(row[i]) }

  /** The run the other end gets: its strings cut to what their length fields can say. */
  function Sent(r: Run): Run { r.(text := Truncated(r.text), url := Truncated(r.url)) }

  function SentRow(row: seq<Run>): seq<Run> { Map(Sent, Capped(row)) }

  lemma StringReads(s: Bytes, rest: Bytes)
    ensures ReadString(StringBytes(s) + rest) == Ok(Truncated(s), rest)
  {
    TruncatedFits(s);
    var t := Truncated(s);
    Limits();
    LeInverts(|t|, 2);
    var b := StringBytes(s) + rest;
    assert b[..2] == Le(|t|, 2) && b[2..] == t + rest;
  }

  lemma LookReads(r: Run, rest: Bytes)
    requires Encodable(r)
    ensures ReadLook(LookBytes(r) + rest) == Ok(Look(r.fg, r.bg, r.attrs, r.uc), rest)
  {
    Limits();
    BitsInvert(r.fg);
    BitsInvert(r.bg);
    BitsInvert(r.uc);
    LeInverts(Bits32(r.fg), 4);
    LeInverts(Bits32(r.bg), 4);
    LeInverts(Bits32(r.uc), 4);
    LeInverts(r.attrs, 2);
    var b := LookBytes(r) + rest;
    assert b[..4] == Le(Bits32(r.fg), 4);
    assert b[4..8] == Le(Bits32(r.bg), 4);
    assert b[8..10] == Le(r.attrs, 2);
    assert b[10..14] == Le(Bits32(r.uc), 4);
    assert b[14..] == rest;
  }

  lemma RunReads(r: Run, rest: Bytes)
    requires Encodable(r)
    ensures ReadRun(RunBytes(r) + rest) == Ok(Sent(r), rest)
  {
    var text, look, url := StringBytes(r.text), LookBytes(r), StringBytes(r.url);
    Regroup(text + look, url, rest);
    Regroup(text, look, url + rest);
    StringReads(r.text, look + (url + rest));
    LookReads(r, url + rest);
    StringReads(r.url, rest);
  }

  lemma {:induction false} StripKeepsEncodable(runs: seq<Run>)
    requires forall i :: 0 <= i < |runs| ==> Encodable(runs[i])
    ensures |Stripped(runs)| == |runs| && forall i :: 0 <= i < |runs| ==> Encodable(Stripped(runs)[i])
    decreases |runs|
  {
    if runs != [] { StripKeepsEncodable(runs[1..]); }
  }

  lemma RunsReadBack(runs: seq<Run>, rest: Bytes)
    requires forall i :: 0 <= i < |runs| ==> Encodable(runs[i])
    ensures ReadAll(ReadRun, Cat(RunBytes, runs) + rest, |runs|) == Ok(Map(Sent, runs), rest)
  {
    forall r, after | Encodable(r) ensures ReadRun(RunBytes(r) + after) == Ok(Sent(r), after) { RunReads(r, after); }
    ListReads(RunBytes, Sent, ReadRun, Encodable, runs, rest);
  }

  lemma CountReads(n: nat, body: Bytes)
    requires n <= MAX_U16
    ensures var b := Le(n, 2) + body; |b| >= 2 && UnLe(b[..2]) == n && b[2..] == body
  {
    Limits();
    LeInverts(n, 2);
    assert (Le(n, 2) + body)[..2] == Le(n, 2);
  }

  lemma RowReads(row: seq<Run>, rest: Bytes)
    requires RowEncodable(row)
    ensures ReadRow(RowBytes(row) + rest) == Ok(SentRow(row), rest)
  {
    StripKeepsEncodable(row);
    var c := Capped(row);
    var count, body := Le(Clamp16(|c|), 2), Cat(RunBytes, c);
    RunsReadBack(c, rest);
    CountReads(|c|, body + rest);
    Regroup(count, body, rest);
  }

  lemma HeaderReads(ack: nat, first: nat, count: nat, rest: Bytes)
    requires ack < Limit(8) && first < Limit(8) && count < Limit(2)
    ensures
      var b := ScrollHeader(ack, first, count) + rest;
      && b[0] == MSG_SCROLL && UnLe(b[1..9]) == ack && UnLe(b[9..17]) == first && UnLe(b[17..19]) == count && b[19..] == rest
  {
    LeInverts(count, 2);
    Regroup(Opening(MSG_SCROLL, ack, first), Le(count, 2), rest);
    OpeningReads(MSG_SCROLL, ack, first, Le(count, 2) + rest);
    var b := ScrollHeader(ack, first, count) + rest;
    assert b[17..19] == b[17..][..2] == Le(count, 2);
    assert b[19..] == b[17..][2..] == rest;
  }

  /** Decoding an encoded scroll frame gives back its indices and its rows as sent, and
      leaves nothing over. */
  lemma ScrollRoundTrip(f: Scroll)
    requires f.ack < Limit(8) && f.first < Limit(8) && |f.lines| <= MAX_U16
    requires forall i :: 0 <= i < |f.lines| ==> RowEncodable(f.lines[i])
    ensures DecodeScroll(EncodeScroll(f)) == Ok(f.(lines := Map(SentRow, f.lines)), [])
  {
    Limits();
    var rows := Cat(RowBytes, f.lines);
    HeaderReads(f.ack, f.first, |f.lines|, rows);
    forall row, after | RowEncodable(row) ensures ReadRow(RowBytes(row) + after) == Ok(SentRow(row), after) {
      RowReads(row, after);
    }
    ListReads(RowBytes, SentRow, ReadRow, RowEncodable, f.lines, []);
    assert rows + [] == rows;
  }

  /** A run whose strings fit their length fields arrives as it was sent. */
  lemma ShortRunsArriveWhole(r: Run)
    requires |r.text| <= MAX_U16 && |r.url| <= MAX_U16
    ensures Sent(r) == r
  {}

  lemma {:induction false} MapAt<T, U>(g: T -> U, xs: seq<T>, i: nat)
    requires i < |xs|
    ensures |Map(g, xs)| == |xs| && Map(g, xs)[i] == g(xs[i])
    decreases |xs|
  {
    if i > 0 { MapAt(g, xs[1..], i - 1); } else if |xs| > 1 { MapAt(g, xs[1..], 0); }
  }

  /** A run loses nothing but its link: the target, and the bit that says it was found in
      the text. */
  predicate OnlyUnlinked(r: Run, sent: Run) {
    && sent == r.(url := [], attrs := sent.attrs)
    && (if r.attrs / AUTOLINK % 2 == 1 then sent.attrs + AUTOLINK == r.attrs else sent.attrs == r.attrs)
  }

  /** A row whose strings fit their length fields arrives whole if it fits a reply of its
      own; else every run of it arrives without its link. */
  lemma RowsArriveWhole(row: seq<Run>, i: nat)
    requires i < |row| && forall k :: 0 <= k < |row| ==> |row[k].text| <= MAX_U16 && |row[k].url| <= MAX_U16
    ensures |SentRow(row)| == |row|
    ensures RowSize(row) <= 262144 - 19 ==> SentRow(row)[i] == row[i]
    ensures RowSize(row) > 262144 - 19 ==> OnlyUnlinked(row[i], SentRow(row)[i])
  {
    MapAt(Unlinked, row, i);
    MapAt(Sent, Capped(row), i);
  }

  // --- screen frames -----------------------------------------------------------------------------------

  const SCREEN_HEADER_SIZE := 27

  datatype Flags = Flags(hidden: bool, bell: bool, blink: bool, alt: bool, cleared: bool)

  datatype Entry = Entry(index: nat, row: seq<Run>)

  datatype Screen = Screen(
    ack: nat, base: nat, curRow: nat, curCol: nat, height: nat, style: Byte, flags: Flags, entries: seq<Entry>)

  function FlagByte(f: Flags): Byte {
    (if f.hidden then 1 else 0) + (if f.bell then 2 else 0) + (if f.blink then 4 else 0)
    + (if f.alt then 8 else 0) + (if f.cleared then 16 else 0)
  }

  function ReadFlags(b: Byte): Flags {
    Flags(b % 2 == 1, b / 2 % 2 == 1, b / 4 % 2 == 1, b / 8 % 2 == 1, b / 16 % 2 == 1)
  }

  lemma FlagsRead(f: Flags)
    ensures ReadFlags(FlagByte(f)) == f
  {}

  function ScreenHeader(f: Screen): (b: Bytes)
    ensures |b| == SCREEN_HEADER_SIZE
  {
    Opening(MSG_SCREEN, f.ack, f.base) + ScreenCounts(f) + [f.style, FlagByte(f.flags)]
  }

  function ScreenCounts(f: Screen): (b: Bytes)
    ensures |b| == 8
  {
    Le(Clamp16(f.curRow), 2) + Le(Clamp16(f.curCol), 2) + Le(Clamp16(f.height), 2) + Le(Clamp16(|f.entries|), 2)
  }

  function EntryBytes(e: Entry): Bytes { Le(Clamp16(e.index), 2) + RowBytes(e.row) }

  function EncodeScreen(f: Screen): Bytes { ScreenHeader(f) + Cat(EntryBytes, f.entries) }

  /** The changed rows with their indices; an index outside the screen sends no runs. */
  function EntryAt(rows: seq<seq<Run>>, index: nat): Entry { Entry(index, if index < |rows| then rows[index] else []) }

  method EncodeScreenMsg(ack: nat, base: nat, curRow: nat, curCol: nat, height: nat, style: Byte, flags: Flags,
                         changed: seq<nat>, rows: seq<seq<Run>>) returns (buf: Bytes, ghost entries: seq<Entry>)
    ensures |entries| == |changed| && forall i :: 0 <= i < |changed| ==> entries[i] == EntryAt(rows, changed[i])
    ensures buf == EncodeScreen(Screen(ack, base, curRow, curCol, height, style, flags, entries))
  {
    entries := seq(|changed|, i requires 0 <= i < |changed| => EntryAt(rows, changed[i]));
    ghost var f := Screen(ack, base, curRow, curCol, height, style, flags, entries);
    var header := Opening(MSG_SCREEN, ack, base);
    var counts := Le(Clamp16(curRow), 2) + Le(Clamp16(curCol), 2) + Le(Clamp16(height), 2) + Le(Clamp16(|changed|), 2);
    header := header + counts + [style, FlagByte(flags)];
    assert header == ScreenHeader(f);
    buf := header;
    for i := 0 to |changed|
      invariant buf == header + Cat(EntryBytes, entries[..i])
    {
      CatStep(header, EntryBytes, entries, i);
      Regroup(buf, Le(Clamp16(changed[i]), 2), RowBytes(entries[i].row));
      buf := buf + Le(Clamp16(changed[i]), 2);
      if changed[i] < |rows| {
        buf := AppendRowRuns(buf, rows[changed[i]]);
      } else {
        buf := buf + Le(0, 2);
        NoRuns();
      }
    }
    assert entries[..|changed|] == entries;
  }

  lemma NoRuns()
    ensures RowBytes([]) == Le(0, 2)
  {}

  function ReadEntry(b: Bytes): Read<Entry> {
    if |b| < 2 then Short
    else
      match ReadRow(b[2..])
      case Short => Short
      case Ok(row, rest) => Ok(Entry(UnLe(b[..2]), row), rest)
  }

  function DecodeScreen(b: Bytes): Read<Screen> {
    if |b| < SCREEN_HEADER_SIZE || b[0] != MSG_SCREEN then Short
    else
      match ReadAll(ReadEntry, b[27..], UnLe(b[23..25]))
      case Short => Short
      case Ok(entries, rest) =>
        Ok(Screen(UnLe(b[1..9]), UnLe(b[9..17]), UnLe(b[17..19]), UnLe(b[19..21]), UnLe(b[21..23]),
                  b[25], ReadFlags(b[26]), entries), rest)
  }

  predicate EntryEncodable(e: Entry) { e.index <= MAX_U16 && RowEncodable(e.row) }

  function SentEntry(e: Entry): Entry { Entry(e.index, SentRow(e.row)) }

  lemma EntryReads(e: Entry, rest: Bytes)
    requires EntryEncodable(e)
    ensures ReadEntry(EntryBytes(e) + rest) == Ok(SentEntry(e), rest)
  {
    RowReads(e.row, rest);
    Regroup(Le(e.index, 2), RowBytes(e.row), rest);
    CountReads(e.index, RowBytes(e.row) + rest);
  }

  predicate ScreenEncodable(f: Screen) {
    && f.ack < Limit(8) && f.base < Limit(8) && f.curRow <= MAX_U16 && f.curCol <= MAX_U16 && f.height <= MAX_U16
    && |f.entries| <= MAX_U16 && forall i :: 0 <= i < |f.entries| ==> EntryEncodable(f.entries[i])
  }

  lemma CountsRead(f: Screen)
    requires ScreenEncodable(f)
    ensures
      var b := ScreenCounts(f);
      UnLe(b[0..2]) == f.curRow && UnLe(b[2..4]) == f.curCol && UnLe(b[4..6]) == f.height && UnLe(b[6..8]) == |f.entries|
  {
    Limits();
    LeInverts(f.curRow, 2);
    LeInverts(f.curCol, 2);
    LeInverts(f.height, 2);
    LeInverts(|f.entries|, 2);
    var b := ScreenCounts(f);
    assert b[0..2] == Le(f.curRow, 2);
    assert b[2..4] == Le(f.curCol, 2);
    assert b[4..6] == Le(f.height, 2);
    assert b[6..8] == Le(|f.entries|, 2);
  }

  lemma ScreenHeaderReads(f: Screen, rest: Bytes)
    requires ScreenEncodable(f)
    ensures
      var b := ScreenHeader(f) + rest;
      && b[0] == MSG_SCREEN && UnLe(b[1..9]) == f.ack && UnLe(b[9..17]) == f.base && b[17..25] == ScreenCounts(f)
      && b[25] == f.style && b[26] == FlagByte(f.flags) && b[27..] == rest
  {
    var open, counts, last := Opening(MSG_SCREEN, f.ack, f.base), ScreenCounts(f), [f.style, FlagByte(f.flags)];
    var b := ScreenHeader(f) + rest;
    Regroup(open + counts, last, rest);
    Regroup(open, counts, last + rest);
    OpeningReads(MSG_SCREEN, f.ack, f.base, counts + (last + rest));
    var tail := b[17..];
    assert tail == counts + (last + rest);
    assert b[17..25] == tail[..8] == counts;
    assert tail[8..] == last + rest;
    assert b[25] == tail[8] && b[26] == tail[9];
    assert b[27..] == tail[8..][2..] == rest;
  }

  lemma CountsAt(b: Bytes, counts: Bytes)
    requires |b| >= 25 && |counts| == 8 && b[17..25] == counts
    ensures b[17..19] == counts[0..2] && b[19..21] == counts[2..4] && b[21..23] == counts[4..6] && b[23..25] == counts[6..8]
  {
    SliceOfSlice(b, 17, 25, 0, 2);
    SliceOfSlice(b, 17, 25, 2, 4);
    SliceOfSlice(b, 17, 25, 4, 6);
    SliceOfSlice(b, 17, 25, 6, 8);
  }

  lemma SliceOfSlice(b: Bytes, lo: nat, hi: nat, i: nat, j: nat)
    requires lo <= hi <= |b| && i <= j <= hi - lo
    ensures b[lo..hi][i..j] == b[lo + i..lo + j]
  {
    var x, y := b[lo..hi][i..j], b[lo + i..lo + j];
    forall k | 0 <= k < |x| ensures x[k] == y[k] {
      assert x[k] == b[lo..hi][i + k] == b[lo + (i + k)];
    }
  }

  /** Decoding an encoded screen frame gives back its fields and its rows as sent. */
  lemma ScreenRoundTrip(f: Screen)
    requires ScreenEncodable(f)
    ensures DecodeScreen(EncodeScreen(f)) == Ok(f.(entries := Map(SentEntry, f.entries)), [])
  {
    var body := Cat(EntryBytes, f.entries);
    ScreenHeaderReads(f, body);
    CountsRead(f);
    CountsAt(EncodeScreen(f), ScreenCounts(f));
    FlagsRead(f.flags);
    EntriesRead(f.entries);
  }

  lemma EntriesRead(entries: seq<Entry>)
    requires forall i :: 0 <= i < |entries| ==> EntryEncodable(entries[i])
    ensures ReadAll(ReadEntry, Cat(EntryBytes, entries), |entries|) == Ok(Map(SentEntry, entries), [])
  {
    forall e, after | EntryEncodable(e) ensures ReadEntry(EntryBytes(e) + after) == Ok(SentEntry(e), after) {
      EntryReads(e, after);
    }
    ListReads(EntryBytes, SentEntry, ReadEntry, EntryEncodable, entries, []);
    assert Cat(EntryBytes, entries) + [] == Cat(EntryBytes, entries);
  }
}
