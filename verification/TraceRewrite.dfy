/**
 The physical rewrite: seek, copy in chunks with short reads, skip the removable byte ranges.  It is
 proved to leave exactly the concatenation of the lines that were not selected.
 */
module TraceRewrite {
  import opened Wrappers
  import opened TraceBytes
  import opened LineRanges

  const CHUNK_SIZE := 1048576

  /** A file opened for reading in binary mode. */
  class Source {
    const data: Bytes
    var position: nat

    constructor (data: Bytes)
      ensures this.data == data && position == 0
    {
      this.data := data;
      position := 0;
    }

    method Seek(to: nat)
      modifies this
      ensures position == to
    {
      position := to;
    }

    /** `read(limit)`: some bytes while there are any left, never more than asked for. */
    method Read(limit: nat) returns (chunk: Bytes)
      modifies this
      ensures |chunk| <= limit && position == old(position) + |chunk|
      ensures old(position) <= |data| ==> position <= |data| && chunk == data[old(position)..position]
      ensures chunk == [] <==> limit == 0 || old(position) >= |data|
    {
      if limit == 0 || position >= |data| {
        return [];
      }
      var available := |data| - position;
      var n: nat :| 0 < n <= limit && n <= available;
      chunk := data[position..position + n];
      position := position + n;
    }
  }

  class Target {
    var contents: Bytes

    constructor ()
      ensures contents == []
    {
      contents := [];
    }

    method Write(chunk: Bytes)
      modifies this
      ensures contents == old(contents) + chunk
    {
      contents := contents + chunk;
    }
  }

  /** The bytes from `start` to `end`, as far as the file goes. */
  function Slice(data: Bytes, start: int, end: int): Bytes {
    var low := if start < 0 then 0 else if start > |data| then |data| else start;
    var high := if end > |data| then |data| else end;
    if low < high then data[low..high] else []
  }

  function StopAt(data: Bytes, position: nat, limit: Option<int>): int {
    if limit == None then |data| else position + limit.value
  }

  /** `_copy_bytes`; a negative limit copies nothing. */
  method CopyBytes(source: Source, target: Target, limit: Option<int>)
    modifies source, target
    ensures target.contents == old(target.contents)
      + Slice(source.data, old(source.position), StopAt(source.data, old(source.position), limit))
  {
    var remaining := limit;
    ghost var start, stop := source.position, StopAt(source.data, source.position, limit);
    ghost var before := target.contents;
    while remaining == None || remaining.value > 0
      invariant source.position >= start && (source.position == start || source.position <= |source.data|)
      invariant limit == None <==> remaining == None
      invariant remaining.Some? ==> source.position + remaining.value == stop
      invariant remaining.Some? ==> source.position == start || remaining.value >= 0
      invariant target.contents == before + Slice(source.data, start, source.position)
      decreases |source.data| - source.position
    {
      var chunkSize := if remaining.Some? && remaining.value < CHUNK_SIZE then remaining.value else CHUNK_SIZE;
      ghost var at := source.position;
      var chunk := source.Read(chunkSize);
      if chunk == [] {
        break;
      }
      target.Write(chunk);
      SliceExtends(source.data, start, at, source.position);
      if remaining.Some? {
        remaining := Some(remaining.value - |chunk|);
      }
    }
    SliceToEnd(source.data, start, source.position, stop);
  }

  lemma SliceExtends(data: Bytes, start: nat, at: nat, next: nat)
    requires start <= at <= next <= |data|
    ensures Slice(data, start, at) + data[at..next] == Slice(data, start, next)
  {}

  lemma SliceToEnd(data: Bytes, start: nat, at: nat, stop: int)
    requires start <= at && (at == start || at <= |data|)
    requires at >= |data| || at == stop || (stop <= at && at == start)
    requires at <= stop || at == start
    ensures Slice(data, start, at) == Slice(data, start, stop)
  {}

  function Cursor(ranges: seq<ByteRange>): nat {
    if ranges == [] then 0 else ranges[|ranges| - 1].end
  }

  /** What has been copied before the last range ends. */
  function KeptBefore(data: Bytes, ranges: seq<ByteRange>): Bytes {
    if ranges == [] then []
    else
      var front, last := ranges[..|ranges| - 1], ranges[|ranges| - 1];
      KeptBefore(data, front) + Slice(data, Cursor(front), last.start)
  }

  /** The new file, as a formula. */
  function Rewritten(data: Bytes, ranges: seq<ByteRange>): Bytes {
    KeptBefore(data, ranges) + Slice(data, Cursor(ranges), |data|)
  }

  /** `_rewrite_trace_file` up to the atomic replacement. */
  method RewriteTraceFile(data: Bytes, ranges: seq<ByteRange>) returns (contents: Bytes)
    ensures contents == Rewritten(data, ranges)
  {
    var source := new Source(data);
    var target := new Target();
    var cursor := 0;
    for k := 0 to |ranges|
      invariant source.data == data
      invariant cursor == Cursor(ranges[..k])
      invariant target.contents == KeptBefore(data, ranges[..k])
    {
      assert ranges[..k + 1][..k] == ranges[..k];
      source.Seek(cursor);
      CopyBytes(source, target, Some(ranges[k].start - cursor));
      cursor := ranges[k].end;
    }
    assert ranges[..|ranges|] == ranges;
    source.Seek(cursor);
    CopyBytes(source, target, None);
    return target.contents;
  }

  /** The lines a predicate selects, and the raw lines it leaves. */
  function Chosen(s: seq<TraceLine>, remove: TraceLine -> bool): seq<TraceLine> {
    if s == [] then []
    else
      var front, last := Chosen(s[..|s| - 1], remove), s[|s| - 1];
      if remove(last) then front + [last] else front
  }

  function KeptLines(lines: seq<Bytes>, s: seq<TraceLine>, remove: TraceLine -> bool): seq<Bytes>
    requires |lines| == |s|
  {
    if s == [] then []
    else
      var n := |s| - 1;
      KeptLines(lines[..n], s[..n], remove) + if remove(s[n]) then [] else [lines[n]]
  }

  lemma ScanFront(lines: seq<Bytes>, s: seq<TraceLine>)
    requires IsScan(lines, s) && s != []
    ensures IsScan(lines[..|s| - 1], s[..|s| - 1])
    ensures s[|s| - 1].start == TotalLength(lines[..|s| - 1]) && s[|s| - 1].end == TotalLength(lines)
    ensures Concat(lines) == Concat(lines[..|s| - 1]) + lines[|s| - 1]
  {
    var n := |s| - 1;
    forall i | 0 <= i < n ensures s[..n][i].start == TotalLength(lines[..n][..i]) {
      assert lines[..n][..i] == lines[..i];
    }
    assert lines[..n + 1] == lines;
    ConcatAround(lines, n);
    assert lines[n + 1..] == [];
    assert Concat(lines[..n]) + lines[n] + [] == Concat(lines[..n]) + lines[n];
  }

  /** The end of the last selected line, or 0. */
  function LastEnd(s: seq<TraceLine>): nat {
    if s == [] then 0 else s[|s| - 1].end
  }

  lemma {:induction false} ChosenInside(lines: seq<Bytes>, s: seq<TraceLine>, remove: TraceLine -> bool)
    requires IsScan(lines, s)
    ensures var c := Chosen(s, remove);
      && Cursor(RunsOf(c).bytes) == LastEnd(c) <= TotalLength(lines)
      && (forall i :: 0 <= i < |c| ==> c[i] in s && remove(c[i]))
    decreases |s|
  {
    if s != [] {
      var n := |s| - 1;
      ScanFront(lines, s);
      ChosenInside(lines[..n], s[..n], remove);
      var c := Chosen(s, remove);
      hide RunsOf;
      if c != [] {
        RunEnds(c);
      } else {
        EmptyRuns();
      }
    }
  }

  lemma KeptSnoc(data: Bytes, ranges: seq<ByteRange>, r: ByteRange)
    ensures KeptBefore(data, ranges + [r]) == KeptBefore(data, ranges) + Slice(data, Cursor(ranges), r.start)
  {
    assert (ranges + [r])[..|ranges|] == ranges;
  }

  /** Moving the end of the last range does not change what is copied in front of it. */
  lemma KeptGrow(data: Bytes, ranges: seq<ByteRange>, end: nat)
    requires ranges != []
    ensures var k := |ranges| - 1;
      KeptBefore(data, ranges[..k] + [ByteRange(ranges[k].start, end)]) == KeptBefore(data, ranges)
  {
    var k := |ranges| - 1;
    KeptSnoc(data, ranges[..k], ByteRange(ranges[k].start, end));
  }

  lemma RunsSnoc(c: seq<TraceLine>, line: TraceLine)
    ensures
      var before, after := RunsOf(c).bytes, RunsOf(c + [line]).bytes;
      if c != [] && Joined(c[|c| - 1], line) then
        before != [] && after == before[..|before| - 1] + [ByteRange(before[|before| - 1].start, line.end)]
      else after == before + [ByteRange(line.start, line.end)]
  {
    assert (c + [line])[..|c|] == c;
  }

  /** Appending a selected line to the selection copies whatever lay between the two. */
  lemma KeptAfterRemoval(data: Bytes, c: seq<TraceLine>, line: TraceLine)
    requires LastEnd(c) <= line.start <= line.end <= |data|
    ensures KeptBefore(data, RunsOf(c + [line]).bytes) == KeptBefore(data, RunsOf(c).bytes) + data[LastEnd(c)..line.start]
  {
    RunsSnoc(c, line);
    if c != [] {
      RunEnds(c);
    }
    EmptyRuns();
    var before := RunsOf(c).bytes;
    assert Cursor(before) == LastEnd(c);
    SliceInside(data, LastEnd(c), line.start);
    hide RunsOf, KeptBefore, Slice, Cursor;
    if c != [] && Joined(c[|c| - 1], line) {
      KeptGrow(data, before, line.end);
      NothingBetween(KeptBefore(data, before), data, line.start);
    } else {
      KeptSnoc(data, before, ByteRange(line.start, line.end));
    }
  }

  lemma SliceInside(data: Bytes, start: nat, end: nat)
    requires start <= end <= |data|
    ensures Slice(data, start, end) == data[start..end]
  {}

  lemma NothingBetween(kept: Bytes, data: Bytes, at: nat)
    requires at <= |data|
    ensures kept + data[at..at] == kept
  {}

  lemma EmptyRuns()
    ensures RunsOf([]).bytes == []
  {}

  lemma SliceOfConcat(a: Bytes, b: Bytes, from: nat)
    requires from <= |a|
    ensures (a + b)[from..|a|] == a[from..] == a[from..|a|]
    ensures (a + b)[from..] == (a + b)[from..|a + b|] == a[from..] + b
  {}

  /** The rewrite depends only on the part of the file in front of its last range. */
  lemma {:induction false} KeptBeforeOfPrefix(data: Bytes, rest: Bytes, c: seq<TraceLine>)
    requires LastEnd(c) <= |data| && Ordered(c)
    ensures KeptBefore(data + rest, RunsOf(c).bytes) == KeptBefore(data, RunsOf(c).bytes)
  {
    if c != [] {
      var front, last := c[..|c| - 1], c[|c| - 1];
      assert c == front + [last];
      OrderedFront(c);
      hide RunsOf, KeptBefore, Ordered;
      KeptBeforeOfPrefix(data, rest, front);
      hide LastEnd;
      KeptAfterRemoval(data, front, last);
      KeptAfterRemoval(data + rest, front, last);
      SliceOfPrefix(data, rest, LastEnd(front), last.start);
    }
  }

  lemma SliceOfPrefix(a: Bytes, b: Bytes, from: nat, to: nat)
    requires from <= to <= |a|
    ensures (a + b)[from..to] == a[from..to]
  {}

  ghost predicate Ordered(c: seq<TraceLine>) {
    forall i :: 0 <= i < |c| ==> c[i].start <= c[i].end && LastEnd(c[..i]) <= c[i].start
  }

  lemma OrderedFront(c: seq<TraceLine>)
    requires Ordered(c) && c != []
    ensures var front, last := c[..|c| - 1], c[|c| - 1];
      Ordered(front) && LastEnd(front) <= last.start <= last.end == LastEnd(c)
  {
    var front := c[..|c| - 1];
    forall i | 0 <= i < |front| ensures front[i].start <= front[i].end && LastEnd(front[..i]) <= front[i].start {
      assert front[..i] == c[..i];
    }
  }

  lemma OrderedSnoc(c: seq<TraceLine>, line: TraceLine)
    requires Ordered(c) && LastEnd(c) <= line.start <= line.end
    ensures Ordered(c + [line])
  {
    hide LastEnd;
    var more := c + [line];
    forall i | 0 <= i < |more| ensures more[i].start <= more[i].end && LastEnd(more[..i]) <= more[i].start {
      assert more[..i] == if i < |c| then c[..i] else c;
    }
  }

  lemma {:induction false} ChosenOrdered(lines: seq<Bytes>, s: seq<TraceLine>, remove: TraceLine -> bool)
    requires IsScan(lines, s)
    ensures Ordered(Chosen(s, remove))
    decreases |s|
  {
    if s != [] {
      var n := |s| - 1;
      ScanFront(lines, s);
      var last := s[n];
      assert last.start == TotalLength(lines[..n]) && last.end >= last.start;
      hide IsScan, TotalLength, Ordered, LastEnd, RunsOf;
      ChosenOrdered(lines[..n], s[..n], remove);
      ChosenInside(lines[..n], s[..n], remove);
      var front := Chosen(s[..n], remove);
      if remove(last) {
        OrderedSnoc(front, last);
      } else {
        assert front + [] == front;
      }
    }
  }

  /** Rewriting by byte ranges is filtering by lines. */
  lemma {:induction false} RewriteIsLineFilter(lines: seq<Bytes>, s: seq<TraceLine>, remove: TraceLine -> bool)
    requires IsScan(lines, s)
    ensures Rewritten(Concat(lines), RunsOf(Chosen(s, remove)).bytes) == Concat(KeptLines(lines, s, remove))
    decreases |s|
  {
    if s != [] {
      var n := |s| - 1;
      ScanFront(lines, s);
      RewriteIsLineFilter(lines[..n], s[..n], remove);
      RewriteStep(lines, s, remove);
    }
  }

  lemma RewriteStep(lines: seq<Bytes>, s: seq<TraceLine>, remove: TraceLine -> bool)
    requires IsScan(lines, s) && s != []
    requires var n := |s| - 1;
      Rewritten(Concat(lines[..n]), RunsOf(Chosen(s[..n], remove)).bytes) == Concat(KeptLines(lines[..n], s[..n], remove))
    ensures Rewritten(Concat(lines), RunsOf(Chosen(s, remove)).bytes) == Concat(KeptLines(lines, s, remove))
  {
    var n := |s| - 1;
    var data, last := Concat(lines[..n]), lines[n];
    var c := Chosen(s[..n], remove);
    ScanFront(lines, s);
    ConcatLength(lines[..n]);
    ConcatLength(lines);
    ChosenInside(lines[..n], s[..n], remove);
    ChosenOrdered(lines[..n], s[..n], remove);
    var kept := KeptLines(lines[..n], s[..n], remove);
    hide RunsOf, KeptBefore, TotalLength, IsScan, Concat, Rewritten, LastEnd;
    if remove(s[n]) {
      assert kept + [] == kept;
      DroppedLine(data, last, c, s[n]);
    } else {
      ConcatSnoc(kept, last);
      KeptLine(data, last, c);
    }
  }

  lemma DroppedLine(data: Bytes, last: Bytes, c: seq<TraceLine>, line: TraceLine)
    requires Ordered(c) && Cursor(RunsOf(c).bytes) == LastEnd(c) <= |data|
    requires line.start == |data| && line.end == |data + last|
    ensures Rewritten(data + last, RunsOf(c + [line]).bytes) == Rewritten(data, RunsOf(c).bytes)
  {
    hide RunsOf, KeptBefore, Slice, Cursor, Ordered;
    KeptBeforeOfPrefix(data, last, c);
    SliceOfConcat(data, last, LastEnd(c));
    KeptAfterRemoval(data + last, c, line);
    RunEndsAt(c, line);
    SliceInside(data, LastEnd(c), |data|);
    SliceInside(data + last, line.end, |data + last|);
    NothingBetween(KeptBefore(data, RunsOf(c).bytes) + data[LastEnd(c)..], data + last, line.end);
  }

  lemma KeptLine(data: Bytes, last: Bytes, c: seq<TraceLine>)
    requires Ordered(c) && Cursor(RunsOf(c).bytes) == LastEnd(c) <= |data|
    ensures Rewritten(data + last, RunsOf(c).bytes) == Rewritten(data, RunsOf(c).bytes) + last
  {
    hide RunsOf, KeptBefore, Slice, Cursor, Ordered;
    KeptBeforeOfPrefix(data, last, c);
    SliceInside(data, LastEnd(c), |data|);
    SliceInside(data + last, LastEnd(c), |data + last|);
    SliceOfConcat(data, last, LastEnd(c));
    Regroup(KeptBefore(data, RunsOf(c).bytes), data[LastEnd(c)..], last);
  }

  lemma RunEndsAt(c: seq<TraceLine>, line: TraceLine)
    ensures Cursor(RunsOf(c + [line]).bytes) == line.end
  {
    RunEnds(c + [line]);
  }

  lemma ConcatSnoc(lines: seq<Bytes>, line: Bytes)
    ensures Concat(lines + [line]) == Concat(lines) + line
  {
    ConcatAppend(lines, [line]);
    assert [line][1..] == [];
    assert Concat([line]) == line + Concat([]);
  }

  lemma {:induction false} LengthsAddUp(lines: seq<Bytes>, s: seq<TraceLine>, remove: TraceLine -> bool)
    requires IsScan(lines, s)
    ensures TotalLength(KeptLines(lines, s, remove)) + LengthOf(Chosen(s, remove)) == TotalLength(lines)
    ensures |KeptLines(lines, s, remove)| + |Chosen(s, remove)| == |lines|
    decreases |s|
  {
    if s != [] {
      var n := |s| - 1;
      ScanFront(lines, s);
      LengthsAddUp(lines[..n], s[..n], remove);
      var kept, c := KeptLines(lines[..n], s[..n], remove), Chosen(s[..n], remove);
      if remove(s[n]) {
        assert (c + [s[n]])[..|c|] == c;
        assert kept + [] == kept;
      } else {
        assert (kept + [lines[n]])[..|kept|] == kept;
      }
    }
  }

  /** Conservation: new size + bytes freed = old size, lines left + lines removed = all lines. */
  lemma RewriteConserves(lines: seq<Bytes>, s: seq<TraceLine>, remove: TraceLine -> bool)
    requires IsScan(lines, s)
    ensures
      var ranges := RunsOf(Chosen(s, remove)).bytes;
      && |Rewritten(Concat(lines), ranges)| + BytesIn(ranges) == |Concat(lines)|
      && |KeptLines(lines, s, remove)| + |Chosen(s, remove)| == |lines|
  {
    RewriteIsLineFilter(lines, s, remove);
    LengthsAddUp(lines, s, remove);
    RunsHoldTheBytes(Chosen(s, remove));
    ConcatLength(lines);
    ConcatLength(KeptLines(lines, s, remove));
  }
}
