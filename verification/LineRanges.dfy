/**
 Line and byte ranges: merging overlapping or touching line ranges into their normal form, and
 collecting selected trace lines into maximal runs.
 */
module LineRanges {
  import opened Sorting
  import opened TraceBytes

  /** Inclusive, 1-based. */
  datatype LineRange = LineRange(first: int, last: int)

  /** Half-open. */
  datatype ByteRange = ByteRange(start: nat, end: nat)

  ghost predicate WellFormed(r: LineRange) {
    1 <= r.first <= r.last
  }

  predicate Covers(ranges: seq<LineRange>, n: int) {
    exists i :: 0 <= i < |ranges| && ranges[i].first <= n <= ranges[i].last
  }

  /** In order, with at least one uncovered line between neighbours. */
  ghost predicate NormalForm(ranges: seq<LineRange>) {
    && (forall i :: 0 <= i < |ranges| ==> WellFormed(ranges[i]))
    && (forall i, j :: 0 <= i < j < |ranges| ==> ranges[i].last + 1 < ranges[j].first)
  }

  function RangeKey(r: LineRange): seq<int> {
    [r.first, r.last]
  }

  predicate RangeLeq(a: LineRange, b: LineRange) {
    LexLeq(RangeKey(a), RangeKey(b))
  }

  lemma SortedByFirst(ranges: seq<LineRange>)
    ensures var s := Sort(ranges, RangeLeq);
      && (forall i, j :: 0 <= i < j < |s| ==> s[i].first <= s[j].first)
      && (forall r :: r in s <==> r in ranges)
  {
    KeyOrderIsTotal(RangeKey, RangeLeq);
    SortSorts(ranges, RangeLeq);
    SortMembers(ranges, RangeLeq);
    var s := Sort(ranges, RangeLeq);
    forall i, j | 0 <= i < j < |s| ensures s[i].first <= s[j].first {
      assert RangeLeq(s[i], s[j]);
    }
  }

  lemma CoverageOfMembers(a: seq<LineRange>, b: seq<LineRange>, n: int)
    requires forall r :: r in a <==> r in b
    ensures Covers(a, n) <==> Covers(b, n)
  {
    if i :| 0 <= i < |a| && a[i].first <= n <= a[i].last {
      assert a[i] in b;
    }
    if i :| 0 <= i < |b| && b[i].first <= n <= b[i].last {
      assert b[i] in a;
    }
  }

  lemma CoversSnoc(ranges: seq<LineRange>, r: LineRange, n: int)
    ensures Covers(ranges + [r], n) <==> Covers(ranges, n) || r.first <= n <= r.last
  {
    if Covers(ranges, n) {
      var i :| 0 <= i < |ranges| && ranges[i].first <= n <= ranges[i].last;
      assert (ranges + [r])[i] == ranges[i];
    }
    if r.first <= n <= r.last {
      assert (ranges + [r])[|ranges|] == r;
    }
  }

  lemma NormalSnoc(ranges: seq<LineRange>, r: LineRange)
    requires NormalForm(ranges) && WellFormed(r)
    requires ranges != [] ==> ranges[|ranges| - 1].last + 1 < r.first
    ensures NormalForm(ranges + [r])
  {
    forall i | 0 <= i < |ranges| ensures ranges[i].last + 1 < r.first {
      assert i == |ranges| - 1 || ranges[i].last + 1 < ranges[|ranges| - 1].first;
      assert WellFormed(ranges[|ranges| - 1]);
    }
  }

  lemma NormalGrow(ranges: seq<LineRange>, last: int)
    requires NormalForm(ranges) && ranges != [] && ranges[|ranges| - 1].last <= last
    ensures NormalForm(ranges[..|ranges| - 1] + [LineRange(ranges[|ranges| - 1].first, last)])
  {
    assert WellFormed(ranges[|ranges| - 1]);
  }

  /** `_merge_line_ranges`. */
  method MergeLineRanges(ranges: seq<LineRange>) returns (merged: seq<LineRange>)
    requires forall i :: 0 <= i < |ranges| ==> WellFormed(ranges[i])
    ensures NormalForm(merged)
    ensures forall n :: Covers(merged, n) <==> Covers(ranges, n)
  {
    var s := Sort(ranges, RangeLeq);
    SortedByFirst(ranges);
    hide Sort, Covers;
    merged := [];
    for k := 0 to |s|
      invariant NormalForm(merged)
      invariant merged != [] ==> k > 0 && merged[|merged| - 1].first <= s[k - 1].first
      invariant k > 0 ==> merged != []
      invariant forall n :: Covers(merged, n) <==> Covers(s[..k], n)
    {
      var item := s[k];
      assert item in ranges && WellFormed(item);
      ghost var before := merged;
      if merged == [] || item.first > merged[|merged| - 1].last + 1 {
        NormalSnoc(merged, item);
        merged := merged + [item];
        forall n ensures Covers(merged, n) <==> Covers(before, n) || item.first <= n <= item.last {
          CoversSnoc(before, item, n);
        }
      } else {
        var previous := merged[|merged| - 1];
        var joined := LineRange(previous.first, if item.last < previous.last then previous.last else item.last);
        NormalGrow(merged, joined.last);
        merged := merged[..|merged| - 1] + [joined];
        forall n ensures Covers(merged, n) <==> Covers(before, n) || item.first <= n <= item.last {
          assert before == before[..|before| - 1] + [previous];
          CoversSnoc(before[..|before| - 1], previous, n);
          CoversSnoc(before[..|before| - 1], joined, n);
        }
      }
      forall n ensures Covers(merged, n) <==> Covers(s[..k + 1], n) {
        assert s[..k + 1] == s[..k] + [item];
        CoversSnoc(s[..k], item, n);
      }
    }
    assert s[..|s|] == s;
    forall n ensures Covers(merged, n) <==> Covers(ranges, n) {
      CoverageOfMembers(s, ranges, n);
    }
  }

  lemma FirstIsLeastCovered(a: seq<LineRange>)
    requires NormalForm(a) && a != []
    ensures Covers(a, a[0].first) && Covers(a, a[0].last) && !Covers(a, a[0].last + 1)
    ensures forall n :: a[0].first <= n <= a[0].last ==> Covers(a, n)
    ensures forall n :: Covers(a, n) ==> n >= a[0].first
  {
    assert a[0].first <= a[0].first <= a[0].last;
    assert WellFormed(a[0]);
    forall n | a[0].first <= n <= a[0].last ensures Covers(a, n) {}
    forall n | Covers(a, n) ensures n >= a[0].first {
      var i :| 0 <= i < |a| && a[i].first <= n <= a[i].last;
      if i > 0 {
        assert a[0].last + 1 < a[i].first;
      }
    }
    forall i | 0 <= i < |a| ensures !(a[i].first <= a[0].last + 1 <= a[i].last) {
      assert i == 0 || a[0].last + 1 < a[i].first;
    }
  }

  lemma SameFirstRange(a: seq<LineRange>, b: seq<LineRange>)
    requires NormalForm(a) && NormalForm(b) && a != [] && b != []
    requires forall n :: Covers(a, n) <==> Covers(b, n)
    ensures a[0] == b[0]
  {
    FirstIsLeastCovered(a);
    FirstIsLeastCovered(b);
    hide Covers;
    assert Covers(b, a[0].first) && Covers(a, b[0].first);
    assert a[0].first == b[0].first;
    var x, y := a[0].last, b[0].last;
    assert x < y ==> Covers(b, x + 1);
    assert y < x ==> Covers(a, y + 1);
  }

  lemma CoversTail(a: seq<LineRange>, n: int)
    requires NormalForm(a) && a != []
    ensures Covers(a[1..], n) <==> Covers(a, n) && n > a[0].last
  {
    if Covers(a[1..], n) {
      var i :| 0 <= i < |a[1..]| && a[1..][i].first <= n <= a[1..][i].last;
      assert a[i + 1] == a[1..][i];
      assert a[0].last + 1 < a[i + 1].first;
    }
    if Covers(a, n) && n > a[0].last {
      var i :| 0 <= i < |a| && a[i].first <= n <= a[i].last;
      assert a[1..][i - 1] == a[i];
    }
  }

  /** A covered set has one normal form: merged ranges are equal as soon as they protect the same lines. */
  lemma {:induction false} NormalFormIsUnique(a: seq<LineRange>, b: seq<LineRange>)
    requires NormalForm(a) && NormalForm(b)
    requires forall n :: Covers(a, n) <==> Covers(b, n)
    ensures a == b
  {
    if a == [] || b == [] {
      if a != [] { FirstIsLeastCovered(a); }
      if b != [] { FirstIsLeastCovered(b); }
    } else {
      SameFirstRange(a, b);
      forall n ensures Covers(a[1..], n) <==> Covers(b[1..], n) {
        CoversTail(a, n);
        CoversTail(b, n);
      }
      NormalFormIsUnique(a[1..], b[1..]);
      assert a == [a[0]] + a[1..] && b == [b[0]] + b[1..];
    }
  }

  /** The second line continues the run that ends with the first. */
  predicate Joined(a: TraceLine, b: TraceLine) {
    b.number == a.number + 1 && b.start == a.end
  }

  datatype Runs = Runs(lines: seq<LineRange>, bytes: seq<ByteRange>)

  /** Maximal runs of joined neighbours, as a formula. */
  function RunsOf(s: seq<TraceLine>): (r: Runs)
    ensures |r.lines| == |r.bytes| && (s != [] ==> |r.lines| > 0)
  {
    if s == [] then Runs([], [])
    else
      var n := |s| - 1;
      var front, last := RunsOf(s[..n]), s[n];
      var k := |front.lines| - 1;
      if n > 0 && Joined(s[n - 1], last) then
        Runs(front.lines[..k] + [LineRange(front.lines[k].first, last.number)],
             front.bytes[..k] + [ByteRange(front.bytes[k].start, last.end)])
      else Runs(front.lines + [LineRange(last.number, last.number)], front.bytes + [ByteRange(last.start, last.end)])
  }

  /** `_ranges_for_trace_lines`. */
  method RangesForTraceLines(s: seq<TraceLine>) returns (lineRanges: seq<LineRange>, byteRanges: seq<ByteRange>)
    ensures Runs(lineRanges, byteRanges) == RunsOf(s)
  {
    lineRanges, byteRanges := [], [];
    if s == [] {
      return;
    }
    var first, previous := s[0], s[0];
    assert s[..1][..0] == [] && RunsOf([]) == Runs([], []);
    for k := 1 to |s|
      invariant previous == s[k - 1]
      invariant RunsOf(s[..k]) == Runs(
        lineRanges + [LineRange(first.number, previous.number)], byteRanges + [ByteRange(first.start, previous.end)])
    {
      assert s[..k + 1][..k] == s[..k];
      var current := s[k];
      if Joined(previous, current) {
        previous := current;
        continue;
      }
      lineRanges := lineRanges + [LineRange(first.number, previous.number)];
      byteRanges := byteRanges + [ByteRange(first.start, previous.end)];
      first, previous := current, current;
    }
    assert s[..|s|] == s;
    lineRanges := lineRanges + [LineRange(first.number, previous.number)];
    byteRanges := byteRanges + [ByteRange(first.start, previous.end)];
  }

  /** A selection from the lines of one file, in order. */
  ghost predicate FromOneFile(s: seq<TraceLine>) {
    && (forall i :: 0 <= i < |s| ==> s[i].number >= 1 && s[i].start < s[i].end)
    && (forall i, j :: 0 <= i < j < |s| ==> s[i].number < s[j].number && s[i].end <= s[j].start)
    && (forall i, j :: 0 <= i < j < |s| ==> (s[j].number == s[i].number + 1 <==> s[j].start == s[i].end))
  }

  predicate Selects(s: seq<TraceLine>, n: int) {
    exists i :: 0 <= i < |s| && s[i].number == n
  }

  lemma SelectsSnoc(s: seq<TraceLine>, n: int)
    requires s != []
    ensures Selects(s, n) <==> Selects(s[..|s| - 1], n) || s[|s| - 1].number == n
  {
    if Selects(s[..|s| - 1], n) {
      var i :| 0 <= i < |s| - 1 && s[..|s| - 1][i].number == n;
      assert s[i].number == n;
    }
    if Selects(s, n) && s[|s| - 1].number != n {
      var i :| 0 <= i < |s| && s[i].number == n;
      assert s[..|s| - 1][i] == s[i];
    }
  }

  /** The runs are the normal form of the selected line numbers: exact, ordered and maximal. */
  lemma {:induction false} RunsAreExactAndMaximal(s: seq<TraceLine>)
    requires FromOneFile(s)
    ensures NormalForm(RunsOf(s).lines)
    ensures forall n :: Covers(RunsOf(s).lines, n) <==> Selects(s, n)
    ensures s != [] ==> RunsOf(s).lines[|RunsOf(s).lines| - 1].last == s[|s| - 1].number
  {
    if s != [] {
      var n, front := |s| - 1, s[..|s| - 1];
      RunsAreExactAndMaximal(front);
      var before, after := RunsOf(front).lines, RunsOf(s).lines;
      ExtendRuns(s);
      forall x ensures Covers(after, x) <==> Selects(s, x) {
        SelectsSnoc(s, x);
        if n > 0 && Joined(s[n - 1], s[n]) {
          var k := |before| - 1;
          assert before == before[..k] + [before[k]];
          CoversSnoc(before[..k], before[k], x);
          CoversSnoc(before[..k], after[k], x);
        } else {
          CoversSnoc(before, LineRange(s[n].number, s[n].number), x);
        }
      }
    }
  }

  lemma ExtendRuns(s: seq<TraceLine>)
    requires FromOneFile(s) && s != []
    requires NormalForm(RunsOf(s[..|s| - 1]).lines)
    requires |s| > 1 ==> RunsOf(s[..|s| - 1]).lines[|RunsOf(s[..|s| - 1]).lines| - 1].last == s[|s| - 2].number
    ensures NormalForm(RunsOf(s).lines)
    ensures RunsOf(s).lines[|RunsOf(s).lines| - 1].last == s[|s| - 1].number
  {
    var n := |s| - 1;
    var before, after := RunsOf(s[..n]).lines, RunsOf(s).lines;
    hide NormalForm;
    if n > 0 && Joined(s[n - 1], s[n]) {
      NormalGrow(before, s[n].number);
    } else {
      assert n > 0 ==> s[n - 1].number + 1 < s[n].number;
      NormalSnoc(before, LineRange(s[n].number, s[n].number));
    }
  }

  function BytesIn(ranges: seq<ByteRange>): int {
    if ranges == [] then 0
    else BytesIn(ranges[..|ranges| - 1]) + (ranges[|ranges| - 1].end - ranges[|ranges| - 1].start)
  }

  function LengthOf(s: seq<TraceLine>): int {
    if s == [] then 0 else LengthOf(s[..|s| - 1]) + (s[|s| - 1].end - s[|s| - 1].start)
  }

  lemma {:induction false} RunEnds(s: seq<TraceLine>)
    requires s != []
    ensures RunsOf(s).bytes[|RunsOf(s).bytes| - 1].end == s[|s| - 1].end
  {}

  /** The byte ranges hold exactly the bytes of the selected lines. */
  lemma {:induction false} RunsHoldTheBytes(s: seq<TraceLine>)
    ensures BytesIn(RunsOf(s).bytes) == LengthOf(s)
  {
    if s != [] {
      var n, front := |s| - 1, s[..|s| - 1];
      RunsHoldTheBytes(front);
      var before, after := RunsOf(front).bytes, RunsOf(s).bytes;
      if n > 0 && Joined(s[n - 1], s[n]) {
        RunEnds(front);
        var k := |before| - 1;
        assert after[..k] == before[..k];
      } else {
        assert after[..|after| - 1] == before;
      }
    }
  }
}
