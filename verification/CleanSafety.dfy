/**
 What a committed cleanup has removed.  If the trace has only grown since the plan was read, the
 revalidation makes the stale plan exact for the present state; if another cleanup came between, or
 the session under the caller's own lock has changed, it does not.
 */
module CleanSafety {
  import opened Wrappers
  import opened TraceBytes
  import opened LineRanges
  import opened TraceRewrite
  import opened CleanPlan
  import opened WorkspaceLock
  import TraceCheckpoint

  /** A later reading of a file that is only ever appended to. */
  ghost predicate Grew(before: Option<Bytes>, after: Option<Bytes>) {
    before.Some? ==> after.Some? && before.value <= after.value
  }

  /** Appends apart, nothing happened to the trace while it was read and since. */
  ghost predicate OnlyAppended(r: Readings, now: Bytes) {
    Grew(r.forEvents, r.forRanges) && Grew(r.forRanges, r.forSpans) && Grew(r.forSpans, Some(now))
  }

  lemma PrefixOfSameLength(a: Bytes, b: Bytes)
    requires a <= b && |a| == |b|
    ensures a == b
  {}

  lemma NothingChosenFromNothing(remove: TraceLine -> bool)
    ensures Chosen([], remove) == []
  {}

  /** A plan that may execute has seen a trace that exists. */
  lemma ExecutablePlanReadSomething(decode: Decoder, r: Readings, cutoff: int, plan: CleanPlan)
    requires IsPlan(decode, r, cutoff, plan) && plan.removableCount > 0
    ensures r.forRanges.Some? && r.forEvents.Some? && plan.fileSize == |r.forRanges.value|
    ensures plan.totalLines == |SplitLines(r.forRanges.value)| > 0
  {
    hide LoadTrace, ProtectionOf, RunsOf, SplitLines;
    NothingChosenFromNothing(RemovableUnder(plan.protectedRanges, Boundary(r.checkpoint), cutoff));
    if r.forEvents == None {
      MissingHasNoEvents(decode);
    }
  }

  lemma MissingHasNoEvents(decode: Decoder)
    ensures LoadTrace(decode, None) == Ok([])
  {}

  /** The size check is enough: the plan was read from the very bytes that are there now. */
  lemma AllReadingsAreCurrent(decode: Decoder, r: Readings, cutoff: int, plan: CleanPlan, now: Bytes)
    requires IsPlan(decode, r, cutoff, plan) && plan.removableCount > 0
    requires OnlyAppended(r, now) && |now| == plan.fileSize
    ensures r.forEvents == r.forRanges == r.forSpans == Some(now)
  {
    ExecutablePlanReadSomething(decode, r, cutoff, plan);
    ScanOfPlan(decode, r, cutoff, plan);
    hide IsPlan, Scan;
    PrefixOfSameLength(r.forRanges.value, now);
    PrefixOfSameLength(r.forSpans.value, now);
    ScanOfGrownFile(decode, r.forEvents.value, r.forRanges.value);
  }

  lemma ScanOfPlan(decode: Decoder, r: Readings, cutoff: int, plan: CleanPlan)
    requires IsPlan(decode, r, cutoff, plan)
    ensures Scan(decode, r.forEvents, r.forRanges).Ok?
  {}

  lemma ScanOfGrownFile(decode: Decoder, first: Bytes, second: Bytes)
    requires Scan(decode, Some(first), Some(second)).Ok? && first <= second
    ensures first == second
  {
    ScanLoads(decode, Some(first), Some(second));
    assert first + second[|first|..] == second;
    hide Scan, LoadTrace;
    ScanSeesNoAppend(decode, first, second[|first|..]);
  }

  lemma ScanLoads(decode: Decoder, firstRead: Option<Bytes>, secondRead: Option<Bytes>)
    requires Scan(decode, firstRead, secondRead).Ok?
    ensures LoadTrace(decode, firstRead).Ok?
  {}

  /** The scan of the present trace. */
  ghost function ScanNow(decode: Decoder, now: Bytes): seq<TraceLine>
    requires LoadTrace(decode, Some(now)).Ok?
  {
    DecodeLinesIff(decode, SplitLines(now));
    ScanOf(SplitLines(now), LoadTrace(decode, Some(now)).value)
  }

  ghost function RemoveNow(events: seq<Event>, checkpoint: Option<Checkpoint>, sessions: set<string>, cutoff: int)
    : TraceLine -> bool
  {
    (line: TraceLine) => Removable(events, checkpoint, sessions, cutoff, line.number)
  }

  lemma {:induction false} SameChoice(s: seq<TraceLine>, p: TraceLine -> bool, q: TraceLine -> bool)
    requires forall i :: 0 <= i < |s| ==> p(s[i]) == q(s[i])
    ensures Chosen(s, p) == Chosen(s, q)
  {
    if s != [] {
      SameChoice(s[..|s| - 1], p, q);
    }
  }

  /** A plan read from one stable trace removes exactly the lines that are removable in it. */
  lemma StablePlanIsExact(decode: Decoder, r: Readings, cutoff: int, plan: CleanPlan, now: Bytes)
    requires IsPlan(decode, r, cutoff, plan)
    requires r.forEvents == r.forRanges == r.forSpans == Some(now)
    ensures LoadTrace(decode, Some(now)).Ok?
    ensures
      var remove := RemoveNow(LoadTrace(decode, Some(now)).value, r.checkpoint, plan.protectedSessions, cutoff);
      && IsScan(SplitLines(now), ScanNow(decode, now))
      && Chosen(ScanNow(decode, now), remove) == ChosenUnder(r, cutoff, ScanNow(decode, now), plan.protectedRanges)
      && Rewritten(now, plan.removableBytes) == Concat(KeptLines(SplitLines(now), ScanNow(decode, now), remove))
      && plan.removableCount == |Chosen(ScanNow(decode, now), remove)|
      && plan.removableBytes == RunsOf(Chosen(ScanNow(decode, now), remove)).bytes
  {
    var lines, events, s := SplitLines(now), LoadTrace(decode, Some(now)).value, ScanNow(decode, now);
    var under := RemovableUnder(plan.protectedRanges, Boundary(r.checkpoint), cutoff);
    var remove := RemoveNow(events, r.checkpoint, plan.protectedSessions, cutoff);
    DecodeLinesIff(decode, lines);
    hide SplitLines, LoadTrace, ScanOf, Covers, NormalForm, RunsOf, Protected, Rewritten, TotalLength;
    forall i | 0 <= i < |s| ensures under(s[i]) == remove(s[i]) {
      assert s[i].number == i + 1;
    }
    SameChoice(s, under, remove);
    RewriteIsLineFilter(lines, s, remove);
    ConcatOfSplit(now);
  }

  /**
   Safety of a committed cleanup.  If the trace has only grown since planning began, what is removed
   is exactly what is removable now: old, in front of the present checkpoint's boundary, outside its
   current trial and outside the spans of the plan's sessions, the present checkpoint's among them.
   */
  lemma CommittedCleanIsExact(
      decode: Decoder, r: Readings, cutoff: int, plan: CleanPlan, force: bool, lock: Acquisition,
      now: Bytes, checkpoint: Option<Checkpoint>)
    requires IsPlan(decode, r, cutoff, plan) && OnlyAppended(r, now)
    requires Executes(decode, plan, force, lock, Some(now), checkpoint)
    ensures LoadTrace(decode, Some(now)).Ok?
    ensures
      var remove := RemoveNow(LoadTrace(decode, Some(now)).value, checkpoint, plan.protectedSessions, cutoff);
      && Rewritten(now, plan.removableBytes) == Concat(KeptLines(SplitLines(now), ScanNow(decode, now), remove))
      && plan.removableCount == |Chosen(ScanNow(decode, now), remove)|
    ensures checkpoint.Some? ==> checkpoint.value.session in plan.protectedSessions
  {
    hide IsPlan, LoadTrace, Rewritten, ScanNow, RemoveNow, ProtectionMatches;
    AllReadingsAreCurrent(decode, r, cutoff, plan, now);
    StablePlanIsExact(decode, r, cutoff, plan, now);
    PlanCarriesCheckpoint(decode, r, cutoff, plan);
  }

  lemma PlanCarriesCheckpoint(decode: Decoder, r: Readings, cutoff: int, plan: CleanPlan)
    requires IsPlan(decode, r, cutoff, plan)
    ensures plan.checkpoint == r.checkpoint && plan.cutoff == cutoff
    ensures plan.protectedSessions == ProtectedSessions(r.checkpoint, ReadWorkspaceLock(r.lock))
  {
    hide ProtectionOf, ChosenUnder, RunsOf, Scan, LoadTrace;
  }

  /** Bytes freed and lines removed add up with what is left. */
  lemma CommittedCleanConserves(decode: Decoder, r: Readings, cutoff: int, plan: CleanPlan, now: Bytes)
    requires IsPlan(decode, r, cutoff, plan)
    requires r.forEvents == r.forRanges == r.forSpans == Some(now)
    ensures |Rewritten(now, plan.removableBytes)| + BytesIn(plan.removableBytes) == |now|
    ensures |SplitLines(Rewritten(now, plan.removableBytes))| + plan.removableCount == |SplitLines(now)|
  {
    StablePlanIsExact(decode, r, cutoff, plan, now);
    var remove := RemoveNow(LoadTrace(decode, Some(now)).value, r.checkpoint, plan.protectedSessions, cutoff);
    hide IsPlan, LoadTrace, Rewritten, ScanNow, RemoveNow, SplitLines, RunsOf, Removable;
    var lines, s := SplitLines(now), ScanNow(decode, now);
    RewriteConserves(lines, s, remove);
    ConcatOfSplit(now);
    KeptAreRecords(decode, now, remove);
  }

  lemma KeptAreRecords(decode: Decoder, now: Bytes, remove: TraceLine -> bool)
    requires LoadTrace(decode, Some(now)).Ok?
    ensures var kept := KeptLines(SplitLines(now), ScanNow(decode, now), remove);
      AllRecords(kept) && SplitLines(Concat(kept)) == kept
  {
    LoadableMeansRecords(decode, now);
    var lines, s := SplitLines(now), ScanNow(decode, now);
    KeptIndicesAreExact(lines, s, remove);
    var kept, at := KeptLines(lines, s, remove), KeptIndices(s, remove);
    forall k | 0 <= k < |kept| ensures IsRecord(kept[k]) {
      assert kept[k] == lines[at[k]];
    }
    SplitOfConcat(kept);
  }

  /** Old positions of the lines that stay. */
  ghost function KeptIndices(s: seq<TraceLine>, remove: TraceLine -> bool): seq<nat> {
    if s == [] then []
    else
      var n := |s| - 1;
      KeptIndices(s[..n], remove) + if remove(s[n]) then [] else [n]
  }

  /** `at` lists, in order, the positions of the lines that stay, and `kept` those lines. */
  ghost predicate ListsKept(lines: seq<Bytes>, s: seq<TraceLine>, remove: TraceLine -> bool, at: seq<nat>, kept: seq<Bytes>)
    requires |lines| == |s|
  {
    && |at| == |kept|
    && (forall k :: 0 <= k < |at| ==> at[k] < |s| && !remove(s[at[k]]) && kept[k] == lines[at[k]])
    && (forall j, k :: 0 <= j < k < |at| ==> at[j] < at[k])
    && (forall i :: 0 <= i < |s| && !remove(s[i]) ==> i in at)
  }

  lemma {:induction false} KeptIndicesAreExact(lines: seq<Bytes>, s: seq<TraceLine>, remove: TraceLine -> bool)
    requires |lines| == |s|
    ensures ListsKept(lines, s, remove, KeptIndices(s, remove), KeptLines(lines, s, remove))
  {
    if s != [] {
      var n := |s| - 1;
      KeptIndicesAreExact(lines[..n], s[..n], remove);
      OneMoreLine(lines, s, remove, KeptIndices(s[..n], remove), KeptLines(lines[..n], s[..n], remove));
    }
  }

  lemma OneMoreLine(lines: seq<Bytes>, s: seq<TraceLine>, remove: TraceLine -> bool, at: seq<nat>, kept: seq<Bytes>)
    requires |lines| == |s| > 0
    requires ListsKept(lines[..|s| - 1], s[..|s| - 1], remove, at, kept)
    ensures
      var n := |s| - 1;
      ListsKept(lines, s, remove, at + if remove(s[n]) then [] else [n], kept + if remove(s[n]) then [] else [lines[n]])
  {
    var n := |s| - 1;
    var more := at + if remove(s[n]) then [] else [n];
    assert forall k :: 0 <= k < n ==> s[..n][k] == s[k] && lines[..n][k] == lines[k];
    forall i | 0 <= i < |s| && !remove(s[i]) ensures i in more {
      if i == n {
        assert more[|more| - 1] == n;
      } else {
        assert i in at;
      }
    }
  }

  /** Positions and events of the cleaned trace, in terms of the old one. */
  lemma CleanedEvents(decode: Decoder, now: Bytes, remove: TraceLine -> bool)
    requires LoadTrace(decode, Some(now)).Ok?
    ensures
      var at := KeptIndices(ScanNow(decode, now), remove);
      var cleaned := LoadTrace(decode, Some(Concat(KeptLines(SplitLines(now), ScanNow(decode, now), remove))));
      && cleaned.Ok? && |cleaned.value| == |at|
      && forall k :: 0 <= k < |at| ==>
        at[k] < |LoadTrace(decode, Some(now)).value| && cleaned.value[k] == LoadTrace(decode, Some(now)).value[at[k]]
  {
    hide KeptLines, KeptIndices, Concat, SplitLines, EventOf, AllRecords, ScanNow, DecodeLines, IsScan;
    var lines, s := SplitLines(now), ScanNow(decode, now);
    ScanIsNumbered(decode, now);
    KeptAreRecords(decode, now, remove);
    KeptIndicesAreExact(lines, s, remove);
    DecodedKept(decode, lines, LoadTrace(decode, Some(now)).value, KeptLines(lines, s, remove), KeptIndices(s, remove));
  }

  lemma DecodedKept(decode: Decoder, lines: seq<Bytes>, events: seq<Event>, kept: seq<Bytes>, at: seq<nat>)
    requires DecodeLines(decode, lines) == Ok(events) && |kept| == |at|
    requires forall k :: 0 <= k < |at| ==> at[k] < |lines| && kept[k] == lines[at[k]]
    ensures DecodeLines(decode, kept).Ok? && |DecodeLines(decode, kept).value| == |at| && |events| == |lines|
    ensures forall k :: 0 <= k < |at| ==> DecodeLines(decode, kept).value[k] == events[at[k]]
  {
    DecodeLinesIff(decode, lines);
    DecodeLinesIff(decode, kept);
    hide EventOf, DecodeLines;
    forall k | 0 <= k < |kept| ensures EventOf(decode, kept[k]).Some? {
      assert kept[k] == lines[at[k]];
    }
    forall k | 0 <= k < |at| ensures DecodeLines(decode, kept).value[k] == events[at[k]] {
      assert EventOf(decode, kept[k]) == EventOf(decode, lines[at[k]]);
    }
  }

  /** A protected line that stays is still protected: the ends of its session's span stay too. */
  lemma ProtectionSurvives(
      events: seq<Event>, cleaned: seq<Event>, at: seq<nat>, sessions: set<string>, cutoff: int, k: nat)
    requires |cleaned| == |at| && k < |at|
    requires forall j :: 0 <= j < |at| ==> at[j] < |events| && cleaned[j] == events[at[j]]
    requires forall i, j :: 0 <= i < j < |at| ==> at[i] < at[j]
    requires forall i :: 0 <= i < |events| && !Removable(events, None, sessions, cutoff, i + 1) ==> i in at
    requires !Removable(events, None, sessions, cutoff, at[k] + 1)
    ensures !Removable(cleaned, None, sessions, cutoff, k + 1)
  {
    var n := at[k] + 1;
    if events[n - 1].ts < cutoff {
      assert Protected(events, sessions, None, n);
      var s :| s in sessions && InSpan(events, s, n);
      var a, b :| 0 <= a < |events| && 0 <= b < |events| && OfSession(events, a, s) && OfSession(events, b, s)
        && a + 1 <= n <= b + 1;
      EndsAreProtected(events, sessions, s, a);
      EndsAreProtected(events, sessions, s, b);
      assert a in at && b in at;
      var ka :| 0 <= ka < |at| && at[ka] == a;
      var kb :| 0 <= kb < |at| && at[kb] == b;
      assert ka <= k <= kb;
      assert OfSession(cleaned, ka, s) && OfSession(cleaned, kb, s);
      assert InSpan(cleaned, s, k + 1);
    }
  }

  lemma EndsAreProtected(events: seq<Event>, sessions: set<string>, s: string, a: nat)
    requires s in sessions && a < |events| && OfSession(events, a, s)
    ensures Protected(events, sessions, None, a + 1)
  {
    assert InSpan(events, s, a + 1);
  }

  lemma {:induction false} NothingChosen(s: seq<TraceLine>, remove: TraceLine -> bool)
    requires forall i :: 0 <= i < |s| ==> !remove(s[i])
    ensures Chosen(s, remove) == []
  {
    if s != [] {
      NothingChosen(s[..|s| - 1], remove);
    }
  }

  lemma NoneRemovableAfter(decode: Decoder, now: Bytes, sessions: set<string>, cutoff: int)
    requires LoadTrace(decode, Some(now)).Ok?
    ensures
      var remove := RemoveNow(LoadTrace(decode, Some(now)).value, None, sessions, cutoff);
      var cleaned := LoadTrace(decode, Some(Concat(KeptLines(SplitLines(now), ScanNow(decode, now), remove))));
      cleaned.Ok? && forall n :: !Removable(cleaned.value, None, sessions, cutoff, n)
  {
    hide LoadTrace, SplitLines, KeptIndices, KeptLines, Concat, Removable, ScanOf;
    var events := LoadTrace(decode, Some(now)).value;
    var remove := RemoveNow(events, None, sessions, cutoff);
    CleanedEvents(decode, now, remove);
    var lines, s := SplitLines(now), ScanNow(decode, now);
    ScanIsNumbered(decode, now);
    var at := KeptIndices(s, remove);
    KeptIndicesAreExact(lines, s, remove);
    hide ScanNow;
    var cleaned := LoadTrace(decode, Some(Concat(KeptLines(lines, s, remove)))).value;
    SurvivorsStay(events, cleaned, s, at, sessions, cutoff);
  }

  lemma ScanIsNumbered(decode: Decoder, now: Bytes)
    requires LoadTrace(decode, Some(now)).Ok?
    ensures var s := ScanNow(decode, now);
      && |s| == |SplitLines(now)| == |LoadTrace(decode, Some(now)).value|
      && forall i :: 0 <= i < |s| ==> s[i].number == i + 1
  {
    DecodeLinesIff(decode, SplitLines(now));
    hide DecodeLines, SplitLines, TotalLength, ScanOf;
  }

  lemma RemovableIsALine(events: seq<Event>, checkpoint: Option<Checkpoint>, sessions: set<string>, cutoff: int, n: int)
    requires !(1 <= n <= |events|)
    ensures !Removable(events, checkpoint, sessions, cutoff, n)
  {}

  lemma SurvivorsStay(
      events: seq<Event>, cleaned: seq<Event>, s: seq<TraceLine>, at: seq<nat>, sessions: set<string>, cutoff: int)
    requires |s| == |events| && forall i :: 0 <= i < |s| ==> s[i].number == i + 1
    requires |cleaned| == |at|
    requires forall k :: 0 <= k < |at| ==> at[k] < |events| && cleaned[k] == events[at[k]]
    requires forall i, j :: 0 <= i < j < |at| ==> at[i] < at[j]
    requires var remove := RemoveNow(events, None, sessions, cutoff);
      && (forall k :: 0 <= k < |at| ==> !remove(s[at[k]]))
      && (forall i :: 0 <= i < |s| && !remove(s[i]) ==> i in at)
    ensures forall n :: !Removable(cleaned, None, sessions, cutoff, n)
  {
    hide Removable;
    var remove := RemoveNow(events, None, sessions, cutoff);
    forall i | 0 <= i < |events| && !Removable(events, None, sessions, cutoff, i + 1) ensures i in at {
      assert !remove(s[i]);
    }
    forall n ensures !Removable(cleaned, None, sessions, cutoff, n) {
      if 1 <= n <= |cleaned| {
        assert !remove(s[at[n - 1]]);
        ProtectionSurvives(events, cleaned, at, sessions, cutoff, n - 1);
      } else {
        RemovableIsALine(cleaned, None, sessions, cutoff, n);
      }
    }
  }

  /** Without a checkpoint cleaning is idempotent: planning again with the same cutoff and sessions finds nothing. */
  lemma CleaningIsIdempotent(
      decode: Decoder, r: Readings, r': Readings, cutoff: int, plan: CleanPlan, again: CleanPlan, now: Bytes)
    requires IsPlan(decode, r, cutoff, plan) && IsPlan(decode, r', cutoff, again)
    requires r.checkpoint == r'.checkpoint == None && plan.protectedSessions == again.protectedSessions
    requires r.forEvents == r.forRanges == r.forSpans == Some(now)
    requires r'.forEvents == r'.forRanges == r'.forSpans == Some(Rewritten(now, plan.removableBytes))
    ensures again.removableCount == 0
  {
    hide IsPlan, LoadTrace, Rewritten, KeptLines, SplitLines, Removable, RunsOf, ScanOf, ScanNow, IsScan, RemoveNow, Chosen;
    StablePlanIsExact(decode, r, cutoff, plan, now);
    var after := Rewritten(now, plan.removableBytes);
    StablePlanIsExact(decode, r', cutoff, again, after);
    PlanCarriesCheckpoint(decode, r, cutoff, plan);
    PlanCarriesCheckpoint(decode, r', cutoff, again);
    NoneRemovableAfter(decode, now, plan.protectedSessions, cutoff);
    NothingLeft(decode, after, plan.protectedSessions, cutoff);
  }

  lemma NothingLeft(decode: Decoder, after: Bytes, sessions: set<string>, cutoff: int)
    requires LoadTrace(decode, Some(after)).Ok?
    requires var events := LoadTrace(decode, Some(after)).value;
      forall n :: !Removable(events, None, sessions, cutoff, n)
    ensures Chosen(ScanNow(decode, after), RemoveNow(LoadTrace(decode, Some(after)).value, None, sessions, cutoff)) == []
  {
    hide SplitLines, LoadTrace, Removable, ScanNow;
    var events := LoadTrace(decode, Some(after)).value;
    var s, remove := ScanNow(decode, after), RemoveNow(events, None, sessions, cutoff);
    ScanIsNumbered(decode, after);
    forall i | 0 <= i < |s| ensures !remove(s[i]) {
      assert !Removable(events, None, sessions, cutoff, i + 1);
    }
    NothingChosen(s, remove);
  }

  /**
   A cleanup leaves the checkpoint's line count as it is, and so ahead of the trace exactly when
   fewer lines than it counted are left.
   */
  lemma CleaningCanOvertakeTheCheckpoint(decode: Decoder, r: Readings, cutoff: int, plan: CleanPlan, now: Bytes)
    requires IsPlan(decode, r, cutoff, plan)
    requires r.forEvents == r.forRanges == r.forSpans == Some(now)
    requires Boundary(r.checkpoint).Some?
    ensures
      var count, left := Boundary(r.checkpoint), |SplitLines(Rewritten(now, plan.removableBytes))|;
      && left == plan.totalLines - plan.removableCount
      && (TraceCheckpoint.Inspect(count, left) == TraceCheckpoint.CheckpointAhead
          <==> count.value > plan.totalLines - plan.removableCount)
      && (count.value == plan.totalLines && plan.removableCount > 0 ==>
            && TraceCheckpoint.Reconciled(count, left) == Err(TraceCheckpoint.CheckpointAheadOfTrace)
            && CheckpointAhead in CheckpointRefusals(r.checkpoint, left))
  {
    hide RunsOf, Rewritten, SplitLines, ProtectionOf, Chosen;
    CommittedCleanConserves(decode, r, cutoff, plan, now);
  }

  /** Example events: one byte names the event, 65 an old one of session "b", 66 a new one of "b". */
  function ExampleDecode(text: Bytes): Option<Event> {
    if text == [65] then Some(Event(0, Some("b")))
    else if text == [66] then Some(Event(10, Some("b")))
    else None
  }

  const EXAMPLE_CUTOFF := 5

  const OLD_TRACE: Bytes := [65, LF]

  function ExampleReadings(checkpoint: Option<Checkpoint>, lock: LockObservation): Readings {
    Readings(checkpoint, lock, Some(OLD_TRACE), Some(OLD_TRACE), Some(OLD_TRACE))
  }

  function ExamplePlan(sessions: set<string>, status: LockStatus, checkpoint: Option<Checkpoint>): CleanPlan {
    CleanPlan(1, 2, sessions, [], Boundary(checkpoint), status, EXAMPLE_CUTOFF, [LineRange(1, 1)], [ByteRange(0, 2)], 1,
      [], checkpoint, Some(Protection(sessions, [], Boundary(checkpoint), None)))
  }

  /** No checkpoint, or one of another session that has counted the one line and has no trial. */
  predicate ExampleCheckpoint(checkpoint: Option<Checkpoint>) {
    checkpoint.Some? ==> checkpoint.value.traceLineCount == Some(1) && checkpoint.value.currentTrial == None
  }

  lemma ExampleTrace(x: Byte)
    requires x == 65 || x == 66
    ensures SplitLines([x, LF]) == [[x, LF]]
    ensures LoadTrace(ExampleDecode, Some([x, LF])) == Ok([Event(if x == 65 then 0 else 10, Some("b"))])
  {
    var line := [x, LF];
    assert IsRecord(line);
    assert Concat([line]) == line + Concat([]) == line;
    SplitOfConcat([line]);
    assert line[..1] == [x];
    ExampleLine(line, x);
  }

  lemma ExampleLine(line: Bytes, x: Byte)
    requires x == 65 || x == 66
    requires line == [x, LF] && line[..1] == [x]
    ensures DecodeLines(ExampleDecode, [line]) == Ok([Event(if x == 65 then 0 else 10, Some("b"))])
  {
    assert EventOf(ExampleDecode, line) == Some(Event(if x == 65 then 0 else 10, Some("b")));
    DecodeLinesIff(ExampleDecode, [line]);
    var events := DecodeLines(ExampleDecode, [line]).value;
    assert events == [events[0]];
  }

  lemma ExampleIsPlan(sessions: set<string>, lock: LockObservation, checkpoint: Option<Checkpoint>)
    requires "b" !in sessions && ExampleCheckpoint(checkpoint)
    requires ReadWorkspaceLock(lock).refusals == [] && ProtectedSessions(checkpoint, ReadWorkspaceLock(lock)) == sessions
    ensures IsPlan(ExampleDecode, ExampleReadings(checkpoint, lock), EXAMPLE_CUTOFF,
      ExamplePlan(sessions, ReadWorkspaceLock(lock).status, checkpoint))
  {
    hide SplitLines, LoadTrace, ScanOf, RunsOf, Chosen, ProtectionOf, ProtectedSessions, ReadWorkspaceLock;
    ExampleTrace(65);
    var lines, events := [OLD_TRACE], [Event(0, Some("b"))];
    ExampleUnprotected(events, sessions);
    ExampleScan(lines, events);
    ExampleRuns([TraceLine(1, 0, 2, events[0])], Boundary(checkpoint));
  }

  lemma ExampleScan(lines: seq<Bytes>, events: seq<Event>)
    requires |lines| == |events| == 1 && |lines[0]| == 2
    ensures ScanOf(lines, events) == [TraceLine(1, 0, 2, events[0])]
  {
    assert lines[..0] == [] && TotalLength(lines[..0]) == 0;
  }

  lemma ExampleRuns(s: seq<TraceLine>, boundary: Option<nat>)
    requires boundary == None || boundary == Some(1)
    requires s == [TraceLine(1, 0, 2, Event(0, Some("b")))]
    ensures Chosen(s, RemovableUnder([], boundary, EXAMPLE_CUTOFF)) == s
    ensures RunsOf(s) == Runs([LineRange(1, 1)], [ByteRange(0, 2)])
  {
    var remove := RemovableUnder([], boundary, EXAMPLE_CUTOFF);
    assert s[..0] == [] && Chosen(s[..0], remove) == [] && RunsOf(s[..0]) == Runs([], []);
    assert [] + s == s;
  }

  lemma ExampleUnprotected(events: seq<Event>, sessions: set<string>)
    requires "b" !in sessions && |events| == 1 && events[0].session == Some("b")
    ensures ProtectionOf(events, sessions, None, [])
  {
    forall n ensures !Protected(events, sessions, None, n) {
      forall s | s in sessions ensures !InSpan(events, s, n) {}
    }
  }

  /**
   Growing is essential.  Plan a trace of one old event; let another cleanup remove it and a session
   append a new event of the same length: the revalidation passes and the new event is removed.
   */
  lemma InterveningCleanDefeatsRevalidation()
    ensures
      var r := ExampleReadings(None, NoLockFile);
      var plan := ExamplePlan({}, Free, None);
      var now: Bytes := [66, LF];
      && IsPlan(ExampleDecode, r, EXAMPLE_CUTOFF, plan)
      && Executes(ExampleDecode, plan, false, Acquired, Some(now), None)
      && LoadTrace(ExampleDecode, Some(now)) == Ok([Event(10, Some("b"))])
      && Rewritten(now, plan.removableBytes) == []
      && !OnlyAppended(r, now)
  {
    ExampleIsPlan({}, NoLockFile, None);
    ExampleTrace(66);
    ExampleUnprotected([Event(10, Some("b"))], {});
    ExampleRewrite([66, LF]);
  }

  lemma ExampleRewrite(now: Bytes)
    requires |now| == 2
    ensures Rewritten(now, [ByteRange(0, 2)]) == []
  {
    var ranges := [ByteRange(0, 2)];
    assert ranges[..0] == [] && KeptBefore(now, ranges[..0]) == [];
    assert now[0..0] == [] && now[2..2] == [];
  }

  /** It happens: a checkpoint that has counted the whole trace is ahead of it once its one old line is removed. */
  lemma CleanOvertakesTheCheckpoint()
    ensures
      var checkpoint := Some(Checkpoint("a", Some(1), None, ""));
      var plan := ExamplePlan({"a"}, Free, checkpoint);
      && IsPlan(ExampleDecode, ExampleReadings(checkpoint, NoLockFile), EXAMPLE_CUTOFF, plan)
      && Executes(ExampleDecode, plan, false, Acquired, Some(OLD_TRACE), checkpoint)
      && Rewritten(OLD_TRACE, plan.removableBytes) == []
      && TraceCheckpoint.Inspect(Boundary(checkpoint), 0) == TraceCheckpoint.CheckpointAhead
      && TraceCheckpoint.Reconciled(Boundary(checkpoint), 0) == Err(TraceCheckpoint.CheckpointAheadOfTrace)
      && CheckpointRefusals(checkpoint, 0) == [CheckpointAhead]
  {
    var checkpoint := Some(Checkpoint("a", Some(1), None, ""));
    ExampleIsPlan({"a"}, NoLockFile, checkpoint);
    ExampleTrace(65);
    ExampleUnprotected([Event(0, Some("b"))], {"a"});
    ExampleRewrite(OLD_TRACE);
  }

  predicate IsProtectedEvent(e: Event, plan: CleanPlan, checkpoint: Option<Checkpoint>) {
    && e.session.Some?
    && (e.session.value in plan.protectedSessions
      || (checkpoint.Some? && checkpoint.value.session == e.session.value))
  }

  /** The cleaned trace, line by line: which old positions stay. */
  ghost predicate Keeps(events: seq<Event>, cleaned: seq<Event>, at: seq<nat>) {
    && |at| == |cleaned|
    && (forall k :: 0 <= k < |at| ==> at[k] < |events| && cleaned[k] == events[at[k]])
    && (forall j, k :: 0 <= j < k < |at| ==> at[j] < at[k])
  }

  /** Position by position: what stays after a committed cleanup is what was not removable. */
  lemma SurvivorsAreExact(
      decode: Decoder, r: Readings, cutoff: int, plan: CleanPlan, force: bool, lock: Acquisition,
      now: Bytes, checkpoint: Option<Checkpoint>)
    returns (at: seq<nat>)
    requires IsPlan(decode, r, cutoff, plan) && OnlyAppended(r, now)
    requires Executes(decode, plan, force, lock, Some(now), checkpoint)
    ensures
      var events, cleaned := LoadTrace(decode, Some(now)), LoadTrace(decode, Some(Rewritten(now, plan.removableBytes)));
      && events.Ok? && cleaned.Ok? && Keeps(events.value, cleaned.value, at)
      && forall i :: 0 <= i < |events.value| ==>
        (i in at <==> !Removable(events.value, checkpoint, plan.protectedSessions, cutoff, i + 1))
  {
    hide IsPlan, LoadTrace, Rewritten, Executes, SplitLines, ScanNow, KeptLines, KeptIndices, Removable;
    CommittedCleanIsExact(decode, r, cutoff, plan, force, lock, now, checkpoint);
    var events := LoadTrace(decode, Some(now)).value;
    var remove := RemoveNow(events, checkpoint, plan.protectedSessions, cutoff);
    CleanedEvents(decode, now, remove);
    var s := ScanNow(decode, now);
    ScanIsNumbered(decode, now);
    KeptIndicesAreExact(SplitLines(now), s, remove);
    at := KeptIndices(s, remove);
    forall i | 0 <= i < |events|
      ensures i in at <==> !Removable(events, checkpoint, plan.protectedSessions, cutoff, i + 1)
    {
      assert remove(s[i]) == Removable(events, checkpoint, plan.protectedSessions, cutoff, i + 1);
    }
  }

  /** Every event of the session stays where it is among the others. */
  ghost predicate SessionStays(events: seq<Event>, at: seq<nat>, session: string) {
    forall i :: 0 <= i < |events| && OfSession(events, i, session) ==> i in at
  }

  /** No event of the session is old, in front of the checkpoint, and outside every protected span. */
  ghost predicate NothingRemovable(
      events: seq<Event>, checkpoint: Option<Checkpoint>, sessions: set<string>, cutoff: int, session: string)
  {
    forall i :: 0 <= i < |events| && OfSession(events, i, session) ==> !Removable(events, checkpoint, sessions, cutoff, i + 1)
  }

  /**
   What a committed cleanup leaves of a session, the one that holds the lock included: all of it if and
   only if none of its events is removable under the sessions the plan protects, and so at any rate if the
   plan protects the session itself.
   */
  lemma SessionStaysIff(
      decode: Decoder, r: Readings, cutoff: int, plan: CleanPlan, force: bool, lock: Acquisition,
      now: Bytes, checkpoint: Option<Checkpoint>, session: string)
    returns (at: seq<nat>)
    requires IsPlan(decode, r, cutoff, plan) && OnlyAppended(r, now)
    requires Executes(decode, plan, force, lock, Some(now), checkpoint)
    ensures
      var events, cleaned := LoadTrace(decode, Some(now)), LoadTrace(decode, Some(Rewritten(now, plan.removableBytes)));
      && events.Ok? && cleaned.Ok? && Keeps(events.value, cleaned.value, at)
      && (SessionStays(events.value, at, session) <==>
            NothingRemovable(events.value, checkpoint, plan.protectedSessions, cutoff, session))
      && (session in plan.protectedSessions ==> SessionStays(events.value, at, session))
  {
    hide IsPlan, LoadTrace, Rewritten, Executes, Removable;
    at := SurvivorsAreExact(decode, r, cutoff, plan, force, lock, now, checkpoint);
    var events := LoadTrace(decode, Some(now)).value;
    if session in plan.protectedSessions {
      ProtectedIsNotRemovable(events, checkpoint, plan.protectedSessions, cutoff, session);
    }
  }

  lemma ProtectedIsNotRemovable(
      events: seq<Event>, checkpoint: Option<Checkpoint>, sessions: set<string>, cutoff: int, session: string)
    requires session in sessions
    ensures NothingRemovable(events, checkpoint, sessions, cutoff, session)
  {
    forall i | 0 <= i < |events| && OfSession(events, i, session)
      ensures !Removable(events, checkpoint, sessions, cutoff, i + 1)
    {
      assert InSpan(events, session, i + 1);
    }
  }

  /** Every event of a session the plan protects, the checkpoint's among them, keeps its place afterwards. */
  lemma ProtectedEventsAreKept(
      decode: Decoder, r: Readings, cutoff: int, plan: CleanPlan, force: bool, lock: Acquisition,
      now: Bytes, checkpoint: Option<Checkpoint>)
    returns (at: seq<nat>)
    requires IsPlan(decode, r, cutoff, plan) && OnlyAppended(r, now)
    requires Executes(decode, plan, force, lock, Some(now), checkpoint)
    ensures
      var events, cleaned := LoadTrace(decode, Some(now)), LoadTrace(decode, Some(Rewritten(now, plan.removableBytes)));
      && events.Ok? && cleaned.Ok? && Keeps(events.value, cleaned.value, at)
      && forall i :: 0 <= i < |events.value| && IsProtectedEvent(events.value[i], plan, checkpoint) ==> i in at
  {
    CommittedCleanIsExact(decode, r, cutoff, plan, force, lock, now, checkpoint);
    hide IsPlan, LoadTrace, Rewritten, Executes, Removable;
    at := SurvivorsAreExact(decode, r, cutoff, plan, force, lock, now, checkpoint);
    var events := LoadTrace(decode, Some(now)).value;
    forall i | 0 <= i < |events| && IsProtectedEvent(events[i], plan, checkpoint) ensures i in at {
      ProtectedIsNotRemovable(events, checkpoint, plan.protectedSessions, cutoff, events[i].session.value);
      assert OfSession(events, i, events[i].session.value);
    }
  }

  /**
   When the process has taken its lock again for another session, the forced execution of the old
   plan passes the revalidation and removes events of the session that holds the lock.
   */
  lemma SwitchedSessionIsNotProtected()
    ensures
      var planned, current := Holder(ProcessId(1, 0.0), "a"), Holder(ProcessId(1, 0.0), "b");
      var r := ExampleReadings(None, LockedBy(planned, Self));
      var plan := ExamplePlan({"a"}, HeldBySelf, None);
      && IsPlan(ExampleDecode, r, EXAMPLE_CUTOFF, plan)
      && Executes(ExampleDecode, plan, true, BusyWith(Some(current), Self), Some(OLD_TRACE), None)
      && LoadTrace(ExampleDecode, Some(OLD_TRACE)).Ok?
      && InSpan(LoadTrace(ExampleDecode, Some(OLD_TRACE)).value, current.session, 1)
      && Rewritten(OLD_TRACE, plan.removableBytes) == []
  {
    ExampleIsPlan({"a"}, LockedBy(Holder(ProcessId(1, 0.0), "a"), Self), None);
    ExampleTrace(65);
    var events := [Event(0, Some("b"))];
    ExampleUnprotected(events, {"a"});
    assert OfSession(events, 0, "b");
    ExampleRewrite(OLD_TRACE);
  }
}
