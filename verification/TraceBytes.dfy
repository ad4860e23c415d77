/**
 The trace file as bytes: line splitting, validated loading, and the scan that gives every line its
 number and byte range.
 */
module TraceBytes {
  import opened Wrappers

  type Byte = b: int | 0 <= b < 256
  type Bytes = seq<Byte>

  const LF: Byte := 10
  const MAX_TRACE_EVENT_BYTES := 1048576

  /** Length of the first line, its LF included. */
  function LineLength(data: Bytes): (n: nat)
    ensures n <= |data| && (data != [] ==> n > 0)
  {
    if data == [] then 0
    else if data[0] == LF then 1
    else 1 + LineLength(data[1..])
  }

  /** Iterating a file opened in binary mode. */
  function SplitLines(data: Bytes): seq<Bytes> {
    if data == [] then []
    else [data[..LineLength(data)]] + SplitLines(data[LineLength(data)..])
  }

  function Concat(lines: seq<Bytes>): Bytes {
    if lines == [] then [] else lines[0] + Concat(lines[1..])
  }

  /** One complete line: a single LF, at its end. */
  ghost predicate IsRecord(line: Bytes) {
    |line| > 0 && line[|line| - 1] == LF && forall i :: 0 <= i < |line| - 1 ==> line[i] != LF
  }

  ghost predicate AllRecords(lines: seq<Bytes>) {
    forall i :: 0 <= i < |lines| ==> IsRecord(lines[i])
  }

  predicate EndsWithLf(data: Bytes) {
    data != [] && data[|data| - 1] == LF
  }

  lemma {:induction false} ConcatOfSplit(data: Bytes)
    ensures Concat(SplitLines(data)) == data
  {
    if data != [] {
      var n := LineLength(data);
      ConcatOfSplit(data[n..]);
      assert SplitLines(data)[1..] == SplitLines(data[n..]);
      assert data == data[..n] + data[n..];
    }
  }

  lemma {:induction false} ConcatAppend(a: seq<Bytes>, b: seq<Bytes>)
    ensures Concat(a + b) == Concat(a) + Concat(b)
  {
    if a == [] {
      assert a + b == b;
    } else {
      ConcatAppend(a[1..], b);
      assert (a + b)[1..] == a[1..] + b;
      Regroup(a[0], Concat(a[1..]), Concat(b));
    }
  }

  lemma {:induction false} RecordLength(line: Bytes, rest: Bytes)
    requires IsRecord(line)
    ensures LineLength(line + rest) == |line|
  {
    if |line| > 1 {
      RecordLength(line[1..], rest);
      assert (line + rest)[1..] == line[1..] + rest;
    }
  }

  lemma SplitFirst(line: Bytes, tail: Bytes)
    requires IsRecord(line)
    ensures SplitLines(line + tail) == [line] + SplitLines(tail)
  {
    RecordLength(line, tail);
    assert (line + tail)[..|line|] == line && (line + tail)[|line|..] == tail;
  }

  lemma Regroup<T>(a: seq<T>, b: seq<T>, c: seq<T>)
    ensures (a + b) + c == a + (b + c)
  {}

  /** Splitting gives back any list of records written one after the other, plus what follows them. */
  lemma {:induction false} SplitRecords(lines: seq<Bytes>, rest: Bytes)
    requires AllRecords(lines)
    ensures SplitLines(Concat(lines) + rest) == lines + SplitLines(rest)
  {
    if lines == [] {
      assert Concat(lines) + rest == rest;
    } else {
      hide IsRecord, SplitLines;
      Regroup(lines[0], Concat(lines[1..]), rest);
      SplitFirst(lines[0], Concat(lines[1..]) + rest);
      SplitRecords(lines[1..], rest);
      Regroup([lines[0]], lines[1..], SplitLines(rest));
      assert lines == [lines[0]] + lines[1..];
    }
  }

  /** Line splitting and concatenation are inverse on lists of records. */
  lemma SplitOfConcat(lines: seq<Bytes>)
    requires AllRecords(lines)
    ensures SplitLines(Concat(lines)) == lines
  {
    SplitRecords(lines, []);
    assert Concat(lines) + [] == Concat(lines);
  }

  /** Bytes without LF form a single line, which is no record. */
  lemma {:induction false} TornLine(data: Bytes)
    requires data != [] && forall i :: 0 <= i < |data| ==> data[i] != LF
    ensures LineLength(data) == |data| && SplitLines(data) == [data] && !EndsWithLf(data)
  {
    if |data| > 1 {
      TornLine(data[1..]);
    }
    assert data[..|data|] == data && data[|data|..] == [];
    assert SplitLines([]) == [];
  }

  /** The part of a trace event that cleanup reads. */
  datatype Event = Event(ts: int, session: Option<string>)

  datatype TraceError =
    | LineTooLarge | NotTerminated | UndecodableLine | TraceChanged | TraceDisappeared

  /** JSON parsing and event validation of one line without its LF. */
  type Decoder = Bytes -> Option<Event>

  /** `_iter_trace_events`, line by line; the first bad line raises. */
  function DecodeLines(decode: Decoder, lines: seq<Bytes>): Result<seq<Event>, TraceError> {
    if lines == [] then Ok([])
    else
      var line := lines[0];
      if |line| > MAX_TRACE_EVENT_BYTES then Err(LineTooLarge)
      else if !EndsWithLf(line) then Err(NotTerminated)
      else
        match decode(line[..|line| - 1])
        case None => Err(UndecodableLine)
        case Some(event) =>
          var rest :- DecodeLines(decode, lines[1..]);
          Ok([event] + rest)
  }

  /** `load_trace_events` of a file that may be missing. */
  function LoadTrace(decode: Decoder, file: Option<Bytes>): Result<seq<Event>, TraceError> {
    if file == None then Ok([]) else DecodeLines(decode, SplitLines(file.value))
  }

  /** The event of one line, if it is a line that loads. */
  function EventOf(decode: Decoder, line: Bytes): Option<Event> {
    if |line| <= MAX_TRACE_EVENT_BYTES && EndsWithLf(line) then decode(line[..|line| - 1]) else None
  }

  /** Loading succeeds exactly when every line is a complete, decodable line, and keeps their order. */
  lemma {:induction false} DecodeLinesIff(decode: Decoder, lines: seq<Bytes>)
    ensures DecodeLines(decode, lines).Ok? <==> forall i :: 0 <= i < |lines| ==> EventOf(decode, lines[i]).Some?
    ensures DecodeLines(decode, lines).Ok? ==>
      var events := DecodeLines(decode, lines).value;
      && |events| == |lines|
      && forall i :: 0 <= i < |lines| ==> EventOf(decode, lines[i]) == Some(events[i])
  {
    if lines != [] {
      DecodeLinesIff(decode, lines[1..]);
      assert lines == [lines[0]] + lines[1..];
      assert forall i :: 0 < i < |lines| ==> lines[i] == lines[1..][i - 1];
      assert forall i :: 0 <= i < |lines| - 1 ==> lines[1..][i] == lines[i + 1];
    }
  }

  /** Only the LF is missing for a line to be a record. */
  ghost predicate LineShaped(line: Bytes) {
    |line| > 0 && (EndsWithLf(line) ==> IsRecord(line))
  }

  lemma {:induction false} SplitShape(data: Bytes)
    ensures forall i :: 0 <= i < |SplitLines(data)| ==> LineShaped(SplitLines(data)[i])
  {
    if data != [] {
      LineShape(data);
      var n := LineLength(data);
      SplitShape(data[n..]);
      var rest := SplitLines(data[n..]);
      assert LineShaped(data[..n]);
      assert SplitLines(data) == [data[..n]] + rest;
      assert forall i :: 0 <= i < |rest| ==> LineShaped(rest[i]);
    }
  }

  lemma {:induction false} LineShape(data: Bytes)
    requires data != []
    ensures var line := data[..LineLength(data)];
      |line| > 0 && forall i :: 0 <= i < |line| - 1 ==> line[i] != LF
  {
    if data[0] != LF && |data| > 1 {
      LineShape(data[1..]);
      assert data[..LineLength(data)] == [data[0]] + data[1..][..LineLength(data[1..])];
    }
  }

  /** A loadable file is a sequence of records. */
  lemma LoadableMeansRecords(decode: Decoder, data: Bytes)
    requires DecodeLines(decode, SplitLines(data)).Ok?
    ensures AllRecords(SplitLines(data)) && Concat(SplitLines(data)) == data
  {
    ConcatOfSplit(data);
    SplitShape(data);
    DecodeLinesIff(decode, SplitLines(data));
  }

  /** A line with its 1-based number and half-open byte range. */
  datatype TraceLine = TraceLine(number: nat, start: nat, end: nat, event: Event)

  /** Sum of the line lengths: the byte offset behind them. */
  function TotalLength(lines: seq<Bytes>): nat {
    if lines == [] then 0 else TotalLength(lines[..|lines| - 1]) + |lines[|lines| - 1]|
  }

  lemma {:induction false} ConcatLength(lines: seq<Bytes>)
    ensures |Concat(lines)| == TotalLength(lines)
  {
    if lines != [] {
      var front, last := lines[..|lines| - 1], [lines[|lines| - 1]];
      ConcatLength(front);
      ConcatAppend(front, last);
      assert lines == front + last;
      assert last[1..] == [];
      assert Concat(last) == last[0] + Concat([]);
    }
  }

  /** `s` numbers the lines and gives each its place in the concatenation. */
  ghost predicate IsScan(lines: seq<Bytes>, s: seq<TraceLine>) {
    && |s| == |lines|
    && forall i :: 0 <= i < |s| ==>
      && s[i].number == i + 1
      && s[i].start == TotalLength(lines[..i])
      && s[i].end == s[i].start + |lines[i]|
  }

  /** The scan of a file's lines and events. */
  function ScanOf(lines: seq<Bytes>, events: seq<Event>): (s: seq<TraceLine>)
    requires |lines| == |events|
    ensures IsScan(lines, s) && forall i :: 0 <= i < |s| ==> s[i].event == events[i]
  {
    seq(|lines|, i requires 0 <= i < |lines| =>
      TraceLine(i + 1, TotalLength(lines[..i]), TotalLength(lines[..i]) + |lines[i]|, events[i]))
  }

  /**
   `_scan_trace_lines` as a formula.  The file is read twice, once for the events and once for the
   byte ranges, while a writer may be appending; a different number of lines raises.
   */
  function Scan(decode: Decoder, firstRead: Option<Bytes>, secondRead: Option<Bytes>)
    : Result<(seq<TraceLine>, nat), TraceError>
  {
    var events :- LoadTrace(decode, firstRead);
    if secondRead == None then Ok(([], 0))
    else
      var lines := SplitLines(secondRead.value);
      if |lines| != |events| then Err(TraceChanged) else Ok((ScanOf(lines, events), |secondRead.value|))
  }

  /** Every scanned range holds exactly its line. */
  lemma ScanLocates(lines: seq<Bytes>, s: seq<TraceLine>, i: nat)
    requires IsScan(lines, s) && i < |s|
    ensures s[i].start <= s[i].end <= |Concat(lines)|
    ensures Concat(lines)[s[i].start..s[i].end] == lines[i]
    ensures s[i].end == TotalLength(lines[..i + 1])
  {
    ConcatLength(lines[..i]);
    assert lines[..i + 1][..i] == lines[..i];
    ConcatAround(lines, i);
    hide Concat, TotalLength;
    SliceMiddle(Concat(lines[..i]), lines[i], Concat(lines[i + 1..]));
  }

  lemma ConcatAround(lines: seq<Bytes>, i: nat)
    requires i < |lines|
    ensures Concat(lines) == Concat(lines[..i]) + lines[i] + Concat(lines[i + 1..])
  {
    var before, rest := lines[..i], lines[i..];
    assert lines == before + rest;
    ConcatAppend(before, rest);
    assert rest[1..] == lines[i + 1..];
    assert Concat(rest) == lines[i] + Concat(lines[i + 1..]);
  }

  lemma SliceMiddle(a: Bytes, x: Bytes, b: Bytes)
    ensures (a + x + b)[|a|..|a| + |x|] == x
  {}

  /** `_scan_trace_lines`. */
  method ScanTraceLines(decode: Decoder, firstRead: Option<Bytes>, secondRead: Option<Bytes>)
    returns (r: Result<(seq<TraceLine>, nat), TraceError>)
    ensures r == Scan(decode, firstRead, secondRead)
  {
    hide SplitLines, LoadTrace, Concat, ScanOf, TotalLength;
    var events :- LoadTrace(decode, firstRead);
    if secondRead == None {
      return Ok(([], 0));
    }
    var lines := SplitLines(secondRead.value);
    var ranges, offset := RangesOfLines(lines);
    ConcatLength(lines);
    ConcatOfSplit(secondRead.value);
    if |ranges| != |events| {
      return Err(TraceChanged);
    }
    NumberedIsScan(lines, events, ranges);
    return Ok((Numbered(ranges, events), offset));
  }

  function Numbered(ranges: seq<(nat, nat)>, events: seq<Event>): seq<TraceLine>
    requires |ranges| == |events|
  {
    seq(|ranges|, k requires 0 <= k < |ranges| => TraceLine(k + 1, ranges[k].0, ranges[k].1, events[k]))
  }

  lemma NumberedIsScan(lines: seq<Bytes>, events: seq<Event>, ranges: seq<(nat, nat)>)
    requires |lines| == |events| == |ranges|
    requires forall k :: 0 <= k < |lines| ==>
      ranges[k].0 == TotalLength(lines[..k]) && ranges[k].1 == ranges[k].0 + |lines[k]|
    ensures Numbered(ranges, events) == ScanOf(lines, events)
  {
    hide TotalLength;
  }

  method RangesOfLines(lines: seq<Bytes>) returns (ranges: seq<(nat, nat)>, offset: nat)
    ensures |ranges| == |lines| && offset == TotalLength(lines)
    ensures forall k :: 0 <= k < |lines| ==>
      ranges[k].0 == TotalLength(lines[..k]) && ranges[k].1 == ranges[k].0 + |lines[k]|
  {
    ranges, offset := [], 0;
    for i := 0 to |lines|
      invariant |ranges| == i && offset == TotalLength(lines[..i])
      invariant forall k :: 0 <= k < i ==>
        ranges[k].0 == TotalLength(lines[..k]) && ranges[k].1 == ranges[k].0 + |lines[k]|
    {
      var nextOffset := offset + |lines[i]|;
      ranges := ranges + [(offset, nextOffset)];
      assert lines[..i + 1][..i] == lines[..i];
      offset := nextOffset;
    }
    assert lines[..|lines|] == lines;
  }

  /** A scan that succeeds beside an appending writer has read the same bytes twice. */
  lemma ScanSeesNoAppend(decode: Decoder, data: Bytes, appended: Bytes)
    requires LoadTrace(decode, Some(data)).Ok?
    ensures Scan(decode, Some(data), Some(data + appended)).Ok? <==> appended == []
  {
    LoadableMeansRecords(decode, data);
    DecodeLinesIff(decode, SplitLines(data));
    SplitRecords(SplitLines(data), appended);
  }
}
