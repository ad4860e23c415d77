/**
 Appending one line to the trace, with short writes, write errors and crashes.  Over every run the
 file is the concatenation of the completely written lines followed by at most one torn tail, and a
 torn tail stops every later append and every full read.
 */
module AppendLog {
  import opened Wrappers
  import opened TraceBytes

  datatype AppendError =
    | BadLineNumber | EventTooLarge | NotNewlineTerminated | NotFirstLine | AlreadyBegun | WriteFailed | SyncFailed

  datatype Appended = Appended(lineNumber: Option<int>, byteOffset: nat)

  /** The checks of `append_trace_event` before it opens the file; a missing file counts as empty. */
  function CheckAppend(data: Bytes, line: Bytes, expected: Option<int>): Result<Appended, AppendError> {
    if expected.Some? && expected.value <= 0 then Err(BadLineNumber)
    else if |line| > MAX_TRACE_EVENT_BYTES then Err(EventTooLarge)
    else if data != [] && !EndsWithLf(data) then Err(NotNewlineTerminated)
    else if data == [] then
      if expected.Some? && expected.value != 1 then Err(NotFirstLine) else Ok(Appended(Some(1), 0))
    else if expected == Some(1) then Err(AlreadyBegun)
    else Ok(Appended(expected, |data|))
  }

  /** `events.jsonl`, opened with O_APPEND. */
  class TraceFile {
    var data: Bytes

    constructor ()
      ensures data == []
    {
      data := [];
    }

    /**
     `_write_all`.  `accepted[i]` is what the `i`-th `os.write` takes at most; 0 raises, and when the
     list runs out the process dies or the write raises.
     */
    method WriteAll(line: Bytes, accepted: seq<nat>) returns (written: nat)
      modifies this
      ensures written <= |line| && data == old(data) + line[..written]
      ensures written == if Total(accepted) < |line| then Total(accepted) else |line|
    {
      written := 0;
      var i := 0;
      while written < |line|
        invariant written <= |line| && i <= |accepted| && data == old(data) + line[..written]
        invariant written + Total(accepted[i..]) == Total(accepted) || written == |line| <= Total(accepted)
        decreases |accepted| - i
      {
        if i == |accepted| || accepted[i] == 0 {
          return;
        }
        var n := if accepted[i] < |line| - written then accepted[i] else |line| - written;
        assert accepted[i..][1..] == accepted[i + 1..];
        assert line[..written] + line[written..written + n] == line[..written + n];
        data := data + line[written..written + n];
        written := written + n;
        i := i + 1;
      }
    }

    /** `append_trace_event`; `synced` says whether fsync returns. */
    method Append(line: Bytes, expected: Option<int>, accepted: seq<nat>, synced: bool)
      returns (r: Result<Appended, AppendError>)
      modifies this
      ensures var checked := CheckAppend(old(data), line, expected);
        if checked.Err? then r == checked && data == old(data)
        else if Total(accepted) < |line| then r == Err(WriteFailed) && data == old(data) + line[..Total(accepted)]
        else r == (if synced then checked else Err(SyncFailed)) && data == old(data) + line
      // The reported offset is where the line is.
      ensures r.Ok? ==> r.value.byteOffset == |old(data)| && data[r.value.byteOffset..] == line
    {
      var checked :- CheckAppend(data, line, expected);
      var written := WriteAll(line, accepted);
      assert line[..|line|] == line;
      if written < |line| {
        return Err(WriteFailed);
      }
      if !synced {
        return Err(SyncFailed);
      }
      return Ok(checked);
    }
  }

  /** Bytes taken before the first zero write. */
  function Total(accepted: seq<nat>): nat {
    if accepted == [] || accepted[0] == 0 then 0 else accepted[0] + Total(accepted[1..])
  }

  /** Short writes are taken up where they stopped, and each adds at least a byte. */
  lemma {:induction false} ShortWritesAddUp(accepted: seq<nat>, rest: seq<nat>)
    requires forall i :: 0 <= i < |accepted| ==> accepted[i] > 0
    ensures Total(accepted + rest) == Total(accepted) + Total(rest)
    ensures Total(accepted) >= |accepted| && (|accepted| == 1 ==> Total(accepted) == accepted[0])
  {
    if accepted == [] {
      assert accepted + rest == rest;
    } else {
      ShortWritesAddUp(accepted[1..], rest);
      assert (accepted + rest)[1..] == accepted[1..] + rest;
    }
  }

  /** The first zero ends them. */
  lemma ZeroEndsWrites(accepted: seq<nat>, rest: seq<nat>)
    requires forall i :: 0 <= i < |accepted| ==> accepted[i] > 0
    ensures Total(accepted + ([0] + rest)) == Total(accepted)
  {
    ShortWritesAddUp(accepted, [0] + rest);
  }

  /** One attempt to append `line`, of which at most `reach` bytes get to the file. */
  datatype Attempt = Attempt(line: Bytes, expected: Option<int>, reach: nat)

  predicate Begins(data: Bytes, a: Attempt) {
    CheckAppend(data, a.line, a.expected).Ok?
  }

  /** An append begins exactly on a file without a torn end, with a number that can be the next one. */
  lemma BeginsIff(data: Bytes, a: Attempt)
    ensures Begins(data, a) <==>
      && |a.line| <= MAX_TRACE_EVENT_BYTES && (data == [] || EndsWithLf(data))
      && (a.expected.Some? ==> a.expected.value > 0 && (a.expected.value == 1 <==> data == []))
  {}

  /** The number it would report is the expected one, 1 exactly for the first line, and never less. */
  lemma ReportedNumber(data: Bytes, a: Attempt)
    requires Begins(data, a)
    ensures var number := CheckAppend(data, a.line, a.expected).value.lineNumber;
      && (a.expected.Some? ==> number == a.expected)
      && (number == Some(1) <==> data == []) && (number.Some? ==> number.value >= 1)
  {}

  function AfterAttempt(data: Bytes, a: Attempt): Bytes {
    if !Begins(data, a) then data
    else data + if a.reach < |a.line| then a.line[..a.reach] else a.line
  }

  /** The file after a run of attempts, crashes and restarts between them included. */
  function RunAppends(attempts: seq<Attempt>): Bytes {
    if attempts == [] then []
    else AfterAttempt(RunAppends(attempts[..|attempts| - 1]), attempts[|attempts| - 1])
  }

  /** The complete line and the torn piece that one attempt adds. */
  function AddedLines(data: Bytes, a: Attempt): seq<Bytes> {
    if Begins(data, a) && a.reach >= |a.line| then [a.line] else []
  }

  function AddedTail(data: Bytes, a: Attempt): Bytes {
    if Begins(data, a) && a.reach < |a.line| then a.line[..a.reach] else []
  }

  /** The lines that were written to their end, in order. */
  function Completed(attempts: seq<Attempt>): seq<Bytes> {
    if attempts == [] then []
    else
      var front, last := attempts[..|attempts| - 1], attempts[|attempts| - 1];
      Completed(front) + AddedLines(RunAppends(front), last)
  }

  /** What the one interrupted write left behind. */
  function TornTail(attempts: seq<Attempt>): Bytes {
    if attempts == [] then []
    else
      var front, last := attempts[..|attempts| - 1], attempts[|attempts| - 1];
      TornTail(front) + AddedTail(RunAppends(front), last)
  }

  /** Event lines are JSON text without LF, closed by one LF. */
  ghost predicate WellFormed(attempts: seq<Attempt>) {
    forall i :: 0 <= i < |attempts| ==> IsRecord(attempts[i].line)
  }

  ghost predicate NoLf(data: Bytes) {
    forall i :: 0 <= i < |data| ==> data[i] != LF
  }

  lemma {:induction false} ConcatEnds(lines: seq<Bytes>)
    requires AllRecords(lines)
    ensures lines != [] ==> EndsWithLf(Concat(lines))
  {
    if lines != [] {
      ConcatEnds(lines[1..]);
      if |lines| == 1 {
        assert Concat(lines[1..]) == [];
      }
    }
  }

  /** Only the torn tail can keep the next append from beginning on account of the file's end. */
  lemma TornMeansUnterminated(lines: seq<Bytes>, tail: Bytes)
    requires AllRecords(lines) && NoLf(tail)
    ensures var data := Concat(lines) + tail; data != [] && !EndsWithLf(data) <==> tail != []
  {
    ConcatEnds(lines);
    if lines == [] {
      assert Concat(lines) == [];
    }
  }

  lemma AttemptKeepsShape(lines: seq<Bytes>, tail: Bytes, a: Attempt)
    requires AllRecords(lines) && NoLf(tail) && IsRecord(a.line)
    ensures var data := Concat(lines) + tail;
      && AllRecords(lines + AddedLines(data, a)) && NoLf(tail + AddedTail(data, a))
      && AfterAttempt(data, a) == Concat(lines + AddedLines(data, a)) + (tail + AddedTail(data, a))
  {
    var data := Concat(lines) + tail;
    TornMeansUnterminated(lines, tail);
    if Begins(data, a) {
      BeginsTerminated(data, a);
      assert tail == [] && data == Concat(lines);
      hide Begins;
      AppendOne(lines, a);
      if a.reach < |a.line| {
        assert lines + [] == lines;
      } else {
        assert tail + [] == [];
      }
    } else {
      assert lines + [] == lines && tail + [] == tail;
    }
  }

  /** Over every run: complete lines, in order, then the torn tail; no line is glued to another. */
  lemma {:induction false} FileIsLinesAndTail(attempts: seq<Attempt>)
    requires WellFormed(attempts)
    ensures AllRecords(Completed(attempts)) && NoLf(TornTail(attempts))
    ensures RunAppends(attempts) == Concat(Completed(attempts)) + TornTail(attempts)
  {
    if attempts != [] {
      var front := attempts[..|attempts| - 1];
      FileIsLinesAndTail(front);
      hide AfterAttempt, AddedLines, AddedTail, NoLf, AllRecords;
      AttemptKeepsShape(Completed(front), TornTail(front), attempts[|attempts| - 1]);
    }
  }

  lemma BeginsTerminated(data: Bytes, a: Attempt)
    requires Begins(data, a)
    ensures data == [] || EndsWithLf(data)
  {}

  lemma AppendOne(lines: seq<Bytes>, a: Attempt)
    requires AllRecords(lines) && IsRecord(a.line)
    ensures Concat(lines + [a.line]) == Concat(lines) + a.line
  {
    ConcatAppend(lines, [a.line]);
    assert [a.line][1..] == [] && Concat([]) == [];
    assert Concat([a.line]) == a.line + Concat([a.line][1..]);
  }

  /** A torn tail is final: no later attempt begins, so the file never changes again. */
  lemma {:induction false} TornTailStopsAppends(attempts: seq<Attempt>, later: seq<Attempt>)
    requires WellFormed(attempts + later) && TornTail(attempts) != []
    ensures RunAppends(attempts + later) == RunAppends(attempts)
    ensures forall a: Attempt :: !Begins(RunAppends(attempts + later), a)
    decreases |later|
  {
    assert forall i :: 0 <= i < |attempts| ==> attempts[i] == (attempts + later)[i];
    FileIsLinesAndTail(attempts);
    TornMeansUnterminated(Completed(attempts), TornTail(attempts));
    if later == [] {
      assert attempts + later == attempts;
    } else {
      var front := later[..|later| - 1];
      assert (attempts + later)[..|attempts + later| - 1] == attempts + front;
      assert forall i :: 0 <= i < |attempts + front| ==> (attempts + front)[i] == (attempts + later)[i];
      TornTailStopsAppends(attempts, front);
    }
  }

  /** Nothing that was ever written is overwritten. */
  lemma {:induction false} FileOnlyGrows(attempts: seq<Attempt>, later: seq<Attempt>)
    ensures RunAppends(attempts) <= RunAppends(attempts + later)
    decreases |later|
  {
    hide Begins;
    if later == [] {
      assert attempts + later == attempts;
    } else {
      var front := later[..|later| - 1];
      assert (attempts + later)[..|attempts + later| - 1] == attempts + front;
      FileOnlyGrows(attempts, front);
    }
  }

  /**
   The offset reported for a line is the length of all lines completed before it, and the line can be
   found there after whatever is attempted later.
   */
  lemma OffsetLocatesLine(attempts: seq<Attempt>, a: Attempt, later: seq<Attempt>)
    requires WellFormed(attempts) && IsRecord(a.line)
    requires Begins(RunAppends(attempts), a) && a.reach >= |a.line|
    ensures
      var offset := CheckAppend(RunAppends(attempts), a.line, a.expected).value.byteOffset;
      var file := RunAppends(attempts + [a] + later);
      && offset == TotalLength(Completed(attempts))
      && offset + |a.line| <= |file| && file[offset..offset + |a.line|] == a.line
  {
    hide RunAppends, Begins, CheckAppend, AfterAttempt, Completed, TotalLength, WellFormed, IsRecord;
    OffsetIsLength(attempts, a);
    LastAttempt(attempts, a);
    FileOnlyGrows(attempts + [a], later);
    var before := RunAppends(attempts);
    assert (before + a.line)[|before|..|before| + |a.line|] == a.line;
  }

  lemma LastAttempt(attempts: seq<Attempt>, a: Attempt)
    requires Begins(RunAppends(attempts), a) && a.reach >= |a.line|
    ensures RunAppends(attempts + [a]) == RunAppends(attempts) + a.line
  {
    assert (attempts + [a])[..|attempts|] == attempts;
  }

  lemma OffsetIsLength(attempts: seq<Attempt>, a: Attempt)
    requires WellFormed(attempts) && Begins(RunAppends(attempts), a)
    ensures
      var offset := CheckAppend(RunAppends(attempts), a.line, a.expected).value.byteOffset;
      offset == |RunAppends(attempts)| == TotalLength(Completed(attempts))
  {
    FileIsLinesAndTail(attempts);
    TornMeansUnterminated(Completed(attempts), TornTail(attempts));
    BeginsTerminated(RunAppends(attempts), a);
    ConcatLength(Completed(attempts));
    assert RunAppends(attempts) == Concat(Completed(attempts));
  }

  /** A full read after any run refuses a torn file and otherwise returns the completed lines' events. */
  lemma ReadBack(decode: Decoder, attempts: seq<Attempt>)
    requires WellFormed(attempts)
    requires forall i :: 0 <= i < |Completed(attempts)| ==> EventOf(decode, Completed(attempts)[i]).Some?
    ensures var read := LoadTrace(decode, Some(RunAppends(attempts)));
      if TornTail(attempts) != [] then read.Err?
      else
        && read.Ok? && |read.value| == |Completed(attempts)|
        && forall i :: 0 <= i < |read.value| ==>
          EventOf(decode, Completed(attempts)[i]) == Some(read.value[i])
  {
    hide RunAppends, Completed, TornTail, IsRecord, SplitLines, Concat;
    FileIsLinesAndTail(attempts);
    var lines, tail := Completed(attempts), TornTail(attempts);
    SplitRecords(lines, tail);
    DecodeLinesIff(decode, lines + SplitLines(tail));
    if tail != [] {
      TornLine(tail);
      var all := lines + SplitLines(tail);
      assert all[|lines|] == tail && EventOf(decode, tail) == None;
    } else {
      EmptySplit();
      assert lines + SplitLines(tail) == lines;
    }
  }

  lemma EmptySplit()
    ensures SplitLines([]) == []
  {}

  /** Number of complete lines: of LF bytes. */
  function LineCount(data: Bytes): nat {
    if data == [] then 0 else LineCount(data[..|data| - 1]) + if data[|data| - 1] == LF then 1 else 0
  }

  lemma {:induction false} LineCountConcat(a: Bytes, b: Bytes)
    ensures LineCount(a + b) == LineCount(a) + LineCount(b)
  {
    if b == [] {
      assert a + b == a;
    } else {
      LineCountConcat(a, b[..|b| - 1]);
      assert (a + b)[..|a + b| - 1] == a + b[..|b| - 1];
    }
  }

  lemma {:induction false} NoLfCountsZero(data: Bytes)
    requires NoLf(data)
    ensures LineCount(data) == 0
  {
    if data != [] {
      NoLfCountsZero(data[..|data| - 1]);
    }
  }

  lemma RecordCountsOne(line: Bytes)
    requires IsRecord(line)
    ensures LineCount(line) == 1
  {
    NoLfCountsZero(line[..|line| - 1]);
  }

  lemma {:induction false} RecordsCount(lines: seq<Bytes>)
    requires AllRecords(lines)
    ensures LineCount(Concat(lines)) == |lines|
  {
    if lines != [] {
      RecordsCount(lines[1..]);
      RecordCountsOne(lines[0]);
      LineCountConcat(lines[0], Concat(lines[1..]));
    }
  }

  /** `count_trace_events` of a readable file is its number of LF bytes. */
  lemma ReadableCount(decode: Decoder, data: Bytes)
    requires LoadTrace(decode, Some(data)).Ok?
    ensures |LoadTrace(decode, Some(data)).value| == LineCount(data)
    ensures data == [] || EndsWithLf(data)
  {
    LoadableMeansRecords(decode, data);
    DecodeLinesIff(decode, SplitLines(data));
    RecordsCount(SplitLines(data));
    ConcatEnds(SplitLines(data));
  }
}
