/** The capacity-bounded history ring: an unbounded history of committed lines,
    of which only a suffix is retained, each line named by its absolute index. */
module Scrollback {
  import opened Prelude

  /** What the ring means: every line ever committed, the capacity, and the
      absolute index below which the last `Clear` discarded everything. */
  datatype Ring<T> = Ring(capacity: nat, history: seq<T>, cleared: nat)
  {
    ghost predicate Valid() { cleared <= |history| }

    function Committed(): nat { |history| }

    function Oldest(): (r: nat)
      requires cleared <= |history|
      ensures r <= |history| && |history| - r <= capacity
    {
      Max(cleared, |history| - capacity)
    }

    function Append(lines: seq<T>): (r: Ring<T>)
      ensures Valid() ==> r.Valid()
    {
      this.(history := history + lines)
    }

    function Clear(): Ring<T> { this.(cleared := |history|) }
  }

  /** A later append never changes a committed line, and the retention floor only
      moves up: an index evicted once stays evicted. */
  lemma AppendKeepsIndices<T>(r: Ring<T>, lines: seq<T>, abs: nat)
    requires r.Valid()
    ensures r.Oldest() <= r.Append(lines).Oldest()
    ensures abs < r.Committed() ==> r.Append(lines).history[abs] == r.history[abs]
    ensures r.Committed() <= abs < r.Append(lines).Committed()
            ==> r.Append(lines).history[abs] == lines[abs - r.Committed()]
  {
  }

  class ScrollbackRing<T> {
    var buf: seq<T>
    const capacity: nat
    var start: nat
    var count: nat
    var committed: nat
    ghost var history: seq<T>
    ghost var cleared: nat

    ghost function Model(): Ring<T>
      reads this
    {
      Ring(capacity, history, cleared)
    }

    ghost predicate Valid()
      reads this
    {
      && cleared <= |history| == committed
      && count == |buf| <= capacity
      && committed - count == Model().Oldest()
      && (count < capacity ==> start == 0)
      && (if count == 0 then start == 0 else start < count)
      && buf[start..] + buf[..start] == history[committed - count..]
    }

    constructor (cap: int)
      ensures Valid()
      ensures Model() == Ring(Max(cap, 0), [], 0)
    {
      capacity := if cap < 0 then 0 else cap;
      buf, start, count, committed := [], 0, 0, 0;
      history, cleared := [], 0;
    }

    method Append(lines: seq<T>)
      requires Valid()
      modifies this
      ensures Valid()
      ensures Model() == old(Model()).Append(lines)
    {
      if capacity == 0 {
        committed := committed + |lines|;
        history := history + lines;
        return;
      }
      ghost var before := history;
      for n := 0 to |lines|
        invariant Valid()
        invariant cleared == old(cleared)
        invariant history == before + lines[..n]
      {
        AppendOne(lines[n]);
        assert lines[..n + 1] == lines[..n] + [lines[n]];
      }
      assert lines[..|lines|] == lines;
    }

    /** One iteration of the append loop: grow, or overwrite the oldest slot. */
    method AppendOne(line: T)
      requires Valid() && capacity > 0
      modifies this
      ensures Valid()
      ensures history == old(history) + [line] && cleared == old(cleared)
    {
      ghost var was := history;
      if |buf| < capacity {
        buf := buf + [line];
        count := count + 1;
      } else {
        ghost var b, s := buf, start;
        buf := buf[start := line];
        start := (start + 1) % capacity;
        Wrap(s + 1, capacity);
        assert buf[start..] + buf[..start] == (b[s..] + b[..s])[1..] + [line];
      }
      committed := committed + 1;
      history := history + [line];
    }

    /** The i-th retained line, oldest first, read the way the ring reads it. */
    function At(i: nat): (line: T)
      requires Valid() && i < count
      reads this
      ensures line == history[committed - count + i]
    {
      Wrap(start + i, |buf|);
      assert (buf[start..] + buf[..start])[i] == history[committed - count..][i];
      buf[(start + i) % |buf|]
    }

    /** The copying loop both readers share: retained lines `lo..hi`. */
    method Copy(lo: nat, hi: nat) returns (lines: seq<T>)
      requires Valid() && lo <= hi <= count
      ensures lines == history[committed - count + lo..committed - count + hi]
    {
      lines := [];
      for i := lo to hi
        invariant lines == history[committed - count + lo..committed - count + i]
      {
        lines := lines + [At(i)];
      }
    }

    method LinesFrom(abs: nat) returns (firstAbs: nat, lines: seq<T>)
      requires Valid()
      ensures firstAbs == FirstServed(Model(), abs)
      ensures lines == history[firstAbs..]
    {
      if count == 0 || abs >= committed {
        return committed, [];
      }
      var oldest := committed - count;
      var from := Max(abs, oldest);
      var skip := from - oldest;
      lines := Copy(skip, count);
      firstAbs := from;
    }

    method LinesRange(abs: nat, maxLines: int) returns (firstAbs: nat, lines: seq<T>)
      requires Valid()
      ensures maxLines <= 0 ==> firstAbs == committed && lines == []
      ensures maxLines > 0 ==>
                && firstAbs == FirstServed(Model(), abs)
                && lines == history[firstAbs..Min(firstAbs + maxLines, committed)]
    {
      if count == 0 || abs >= committed || maxLines <= 0 {
        return committed, [];
      }
      var oldest := committed - count;
      var from := Max(abs, oldest);
      var skip := from - oldest;
      var take := Min(count - skip, maxLines);
      lines := Copy(skip, skip + take);
      firstAbs := from;
    }

    method Clear()
      requires Valid()
      modifies this
      ensures Valid()
      ensures Model() == old(Model()).Clear()
    {
      buf, start, count := [], 0, 0;
      cleared := committed;
    }
  }

  /** Where a read from `abs` starts: clamped up to the oldest retained line, and
      at the tail when nothing at or above `abs` is retained. */
  function FirstServed<T>(r: Ring<T>, abs: nat): (first: nat)
    requires r.cleared <= |r.history|
    ensures first <= r.Committed()
    ensures abs < r.Committed() && r.Oldest() < r.Committed() ==> first == Max(abs, r.Oldest())
  {
    if r.Oldest() == r.Committed() || abs >= r.Committed() then r.Committed()
    else Max(abs, r.Oldest())
  }

  lemma Wrap(a: nat, n: nat)
    requires a < 2 * n
    ensures a % n == if a < n then a else a - n
  {
  }
}
