/**
 The session writer's line counter, the checkpoint's copy of it, and what both are worth after
 crashes.  The writer classes are specified by the functions that drive the transition system
 `World`, over all of whose runs the counts are proved to be ordered and their gaps accounted for.
 */
module TraceCheckpoint {
  import opened Wrappers
  import opened TraceBytes
  import opened AppendLog

  datatype SessionError = CountMovesBackward | CheckpointAheadOfTrace | Unreadable | AppendRaised | SaveFailed | NoCheckpoint

  datatype Alignment = Aligned | CheckpointMissing | TraceAhead | CheckpointAhead

  /** `checkpoint_with_trace_line_count`. */
  function WithCount(recorded: Option<nat>, count: nat): Result<nat, SessionError> {
    if recorded.Some? && count < recorded.value then Err(CountMovesBackward) else Ok(count)
  }

  /** `inspect_trace_checkpoint_alignment`. */
  function Inspect(recorded: Option<nat>, actual: nat): Alignment {
    if recorded == None then CheckpointMissing
    else if recorded.value == actual then Aligned
    else if recorded.value < actual then TraceAhead
    else CheckpointAhead
  }

  /** `checkpoint_with_reconciled_trace_count`. */
  function Reconciled(recorded: Option<nat>, actual: nat): Result<nat, SessionError> {
    match Inspect(recorded, actual)
    case CheckpointAhead => Err(CheckpointAheadOfTrace)
    case Aligned => Ok(recorded.value)
    case _ => WithCount(recorded, actual)
  }

  /** Reconciling succeeds unless the checkpoint is ahead, and then it yields the actual count. */
  lemma ReconciledIsActual(recorded: Option<nat>, actual: nat)
    ensures Reconciled(recorded, actual) ==
      if Inspect(recorded, actual) == CheckpointAhead then Err(CheckpointAheadOfTrace) else Ok(actual)
  {}

  /** `checkpoint.yaml`: missing, without a line count, or with one. */
  class CheckpointStore {
    var saved: Option<Option<nat>>

    constructor ()
      ensures saved == None
    {
      saved := None;
    }
  }

  /** The attempt a writer with `count` lines behind it makes. */
  function WriterAttempt(count: nat, line: Bytes, reach: nat): Attempt {
    Attempt(line, Some(count + 1), reach)
  }

  predicate AppendSucceeds(data: Bytes, count: nat, line: Bytes, reach: nat, synced: bool) {
    Begins(data, WriterAttempt(count, line, reach)) && reach >= |line| && synced
  }

  /** The line count a session starts from: the recorded one, or a full count. */
  function StartCount(decode: Decoder, data: Bytes, recorded: Option<nat>): Result<nat, SessionError> {
    if recorded.Some? then Ok(recorded.value)
    else if LoadTrace(decode, Some(data)).Err? then Err(Unreadable)
    else Ok(|LoadTrace(decode, Some(data)).value|)
  }

  /** `TraceSessionWriter`. */
  class TraceSessionWriter {
    const file: TraceFile
    var nextLineNumber: int

    ghost predicate Valid()
      reads this
    {
      nextLineNumber >= 1
    }

    function Count(): nat
      requires Valid()
      reads this
    {
      nextLineNumber - 1
    }

    constructor (file: TraceFile, nextLineNumber: int)
      requires nextLineNumber >= 1
      ensures Valid() && this.file == file && this.nextLineNumber == nextLineNumber
    {
      this.file := file;
      this.nextLineNumber := nextLineNumber;
    }

    /** `for_checkpoint`. */
    static method ForCheckpoint(decode: Decoder, file: TraceFile, recorded: Option<nat>)
      returns (r: Result<TraceSessionWriter, SessionError>)
      ensures r.Err? <==> StartCount(decode, file.data, recorded).Err?
      ensures r.Ok? ==> fresh(r.value) && r.value.Valid() && r.value.file == file
      ensures r.Ok? ==> r.value.Count() == StartCount(decode, file.data, recorded).value
    {
      var count :- StartCount(decode, file.data, recorded);
      var writer := new TraceSessionWriter(file, count + 1);
      return Ok(writer);
    }

    /** `append`: the counter moves only when the whole line was written and synced. */
    method Append(line: Bytes, accepted: seq<nat>, synced: bool) returns (r: Result<Appended, AppendError>)
      requires Valid() && line != []
      modifies this, file
      ensures Valid()
      ensures file.data == AfterAttempt(old(file.data), WriterAttempt(old(Count()), line, Total(accepted)))
      ensures r.Ok? <==> AppendSucceeds(old(file.data), old(Count()), line, Total(accepted), synced)
      ensures r.Ok? ==> r == CheckAppend(old(file.data), line, Some(old(Count()) + 1))
      ensures Count() == old(Count()) + if r.Ok? then 1 else 0
    {
      var appended :- file.Append(line, Some(nextLineNumber), accepted, synced);
      nextLineNumber := nextLineNumber + 1;
      return Ok(appended);
    }
  }

  /** `TraceCheckpointWriter`: append first, then record the writer's count. */
  class TraceCheckpointWriter {
    const writer: TraceSessionWriter
    const store: CheckpointStore
    var checkpoint: Option<nat>

    constructor (writer: TraceSessionWriter, store: CheckpointStore, checkpoint: Option<nat>)
      ensures this.writer == writer && this.store == store && this.checkpoint == checkpoint
    {
      this.writer := writer;
      this.store := store;
      this.checkpoint := checkpoint;
    }

    /** `append_and_checkpoint`; `saves` says whether writing the checkpoint file succeeds, `synced` whether fsync does. */
    method AppendAndCheckpoint(line: Bytes, given: Option<Option<nat>>, accepted: seq<nat>, synced: bool, saves: bool)
      returns (r: Result<nat, SessionError>)
      requires writer.Valid() && line != []
      modifies this, writer, writer.file, store
      ensures writer.Valid()
      ensures
        var base := if given == None then old(checkpoint) else given.value;
        var appended := AppendSucceeds(old(writer.file.data), old(writer.Count()), line, Total(accepted), synced);
        var count := old(writer.Count()) + if appended then 1 else 0;
        && writer.file.data == AfterAttempt(old(writer.file.data), WriterAttempt(old(writer.Count()), line, Total(accepted)))
        && writer.Count() == count
        && (r.Ok? <==> appended && WithCount(base, count).Ok? && saves)
        && (if r.Ok? then r.value == count && store.saved == Some(Some(count)) && checkpoint == Some(count)
            else store.saved == old(store.saved) && checkpoint == old(checkpoint))
    {
      var base := if given == None then checkpoint else given.value;
      var appended := writer.Append(line, accepted, synced);
      if appended.Err? {
        return Err(AppendRaised);
      }
      var count :- WithCount(base, writer.Count());
      if !saves {
        return Err(SaveFailed);
      }
      store.saved := Some(Some(count));
      checkpoint := Some(count);
      return Ok(count);
    }
  }

  /**
   One workspace over time.  `writer` is the counter of the session that is running, if any;
   `pending` counts its appends since the last saved checkpoint and `orphaned` those that crashes, or
   a sync that raised behind the whole line, have cut off from every checkpoint since the trace was
   last counted in full.
   */
  datatype World = World(
    data: Bytes, saved: Option<Option<nat>>, writer: Option<nat>, ghost pending: nat, ghost orphaned: nat)

  datatype Step =
    | NewSession
    | Resume
    | Append(line: Bytes, reach: nat, synced: bool)
    | Save(base: Option<nat>, succeeds: bool)
    | Crash
    | Reconcile(succeeds: bool)

  const FRESH: World := World([], None, None, 0, 0)

  function Recorded(saved: Option<Option<nat>>): Option<nat> {
    if saved.Some? then saved.value else None
  }

  /** One step; a step that raises, or that the lock forbids, changes nothing. */
  ghost function Next(decode: Decoder, w: World, step: Step): World {
    match step
    case NewSession =>
      if w.writer.Some? then w else w.(saved := Some(None))
    case Resume =>
      if w.writer.Some? then w
      else
        var n := StartCount(decode, w.data, Recorded(w.saved));
        if n.Err? then w
        else w.(writer := Some(n.value), orphaned := if Recorded(w.saved).Some? then w.orphaned else 0)
    case Append(line, reach, synced) =>
      if w.writer == None then w
      else
        var n := w.writer.value;
        var data := AfterAttempt(w.data, WriterAttempt(n, line, reach));
        if AppendSucceeds(w.data, n, line, reach, synced) then
          w.(data := data, writer := Some(n + 1), pending := w.pending + 1)
        else if AppendSucceeds(w.data, n, line, reach, true) then w.(data := data, orphaned := w.orphaned + 1)
        else w.(data := data)
    case Save(base, succeeds) =>
      if w.writer == None || WithCount(base, w.writer.value).Err? || !succeeds then w
      else w.(saved := Some(w.writer), pending := 0)
    case Crash =>
      w.(writer := None, pending := 0, orphaned := w.orphaned + w.pending)
    case Reconcile(succeeds) =>
      if w.writer.Some? || w.saved == None || LoadTrace(decode, Some(w.data)).Err? then w
      else
        var n := Reconciled(w.saved.value, |LoadTrace(decode, Some(w.data)).value|);
        if n.Err? || !succeeds then w else w.(saved := Some(Some(n.value)), orphaned := 0)
  }

  ghost function Run(decode: Decoder, steps: seq<Step>): World {
    if steps == [] then FRESH else Next(decode, Run(decode, steps[..|steps| - 1]), steps[|steps| - 1])
  }

  ghost predicate Lines(steps: seq<Step>) {
    forall i :: 0 <= i < |steps| ==> steps[i].Append? ==> IsRecord(steps[i].line)
  }

  /** The recorded count and the writer's count fall short of the file by exactly the appends they missed. */
  ghost predicate Accounted(w: World) {
    && (Recorded(w.saved).Some? ==> LineCount(w.data) == Recorded(w.saved).value + w.orphaned + w.pending)
    && (w.writer.Some? ==> LineCount(w.data) == w.writer.value + w.orphaned)
    && (w.writer == None ==> w.pending == 0)
  }

  lemma AttemptCounts(data: Bytes, a: Attempt)
    requires IsRecord(a.line)
    ensures LineCount(AfterAttempt(data, a)) == LineCount(data) + if Begins(data, a) && a.reach >= |a.line| then 1 else 0
  {
    hide Begins;
    if Begins(data, a) {
      if a.reach < |a.line| {
        LineCountConcat(data, a.line[..a.reach]);
        NoLfCountsZero(a.line[..a.reach]);
      } else {
        LineCountConcat(data, a.line);
        RecordCountsOne(a.line);
      }
    }
  }

  lemma StepKeepsAccount(decode: Decoder, w: World, step: Step)
    requires Accounted(w) && (step.Append? ==> IsRecord(step.line))
    ensures Accounted(Next(decode, w, step))
  {
    hide LineCount, LoadTrace, Begins, IsRecord, AfterAttempt;
    if LoadTrace(decode, Some(w.data)).Ok? {
      ReadableCount(decode, w.data);
    }
    if step.Append? && w.writer.Some? {
      AttemptCounts(w.data, WriterAttempt(w.writer.value, step.line, step.reach));
    }
  }

  lemma {:induction false} EveryRunIsAccounted(decode: Decoder, steps: seq<Step>)
    requires Lines(steps)
    ensures Accounted(Run(decode, steps))
  {
    if steps != [] {
      EveryRunIsAccounted(decode, steps[..|steps| - 1]);
      StepKeepsAccount(decode, Run(decode, steps[..|steps| - 1]), steps[|steps| - 1]);
    }
  }

  /**
   Over every run: recorded count <= writer count <= actual lines, the writer is short of the file by
   exactly the orphaned appends, and the checkpoint is never ahead of the trace.
   */
  lemma CountsAreOrdered(decode: Decoder, steps: seq<Step>)
    requires Lines(steps)
    ensures
      var w := Run(decode, steps);
      && (Recorded(w.saved).Some? && w.writer.Some? ==> Recorded(w.saved).value <= w.writer.value)
      && (w.writer.Some? ==> LineCount(w.data) - w.writer.value == w.orphaned)
      && Inspect(Recorded(w.saved), LineCount(w.data)) != CheckpointAhead
  {
    hide Run, LineCount;
    EveryRunIsAccounted(decode, steps);
  }

  /** Over every run the running session's count may be saved over the recorded one, and over a given one unless that is larger. */
  lemma SaveMovesForward(decode: Decoder, steps: seq<Step>, base: Option<nat>)
    requires Lines(steps) && Run(decode, steps).writer.Some?
    ensures
      var w := Run(decode, steps);
      && WithCount(Recorded(w.saved), w.writer.value) == Ok(w.writer.value)
      && (WithCount(base, w.writer.value) == Ok(w.writer.value) <==> base == None || base.value <= w.writer.value)
      && Next(decode, w, Save(Recorded(w.saved), true)).saved == Some(w.writer)
  {
    hide Run, LineCount, LoadTrace;
    CountsAreOrdered(decode, steps);
  }

  /** After any run and crash, reconciling and resuming makes the writer's count exact again. */
  lemma ReconcileRestores(decode: Decoder, steps: seq<Step>)
    requires Lines(steps)
    requires var w := Run(decode, steps);
      w.writer == None && w.saved.Some? && LoadTrace(decode, Some(w.data)).Ok?
    ensures
      var w := Run(decode, steps);
      var resumed := Next(decode, Next(decode, w, Reconcile(true)), Resume);
      resumed.writer == Some(LineCount(w.data)) && resumed.data == w.data && resumed.orphaned == 0
  {
    hide Run, LineCount, LoadTrace;
    var w := Run(decode, steps);
    CountsAreOrdered(decode, steps);
    ReadableCount(decode, w.data);
    ReconciledIsActual(w.saved.value, LineCount(w.data));
  }

  /** A successful append reports the line's true number exactly when no append has been orphaned. */
  lemma ReportedNumberIsTrueIff(decode: Decoder, steps: seq<Step>, line: Bytes, reach: nat)
    requires Lines(steps) && IsRecord(line)
    requires var w := Run(decode, steps); w.writer.Some? && AppendSucceeds(w.data, w.writer.value, line, reach, true)
    ensures
      var w := Run(decode, steps);
      var after := AfterAttempt(w.data, WriterAttempt(w.writer.value, line, reach));
      && CheckAppend(w.data, line, Some(w.writer.value + 1)).Ok?
      && (CheckAppend(w.data, line, Some(w.writer.value + 1)).value.lineNumber == Some(LineCount(after))
          <==> w.orphaned == 0)
  {
    var w := Run(decode, steps);
    EveryRunIsAccounted(decode, steps);
    AttemptCounts(w.data, WriterAttempt(w.writer.value, line, reach));
  }

  /**
   When a running session's append begins, over every run: the event is small enough, and the file is
   empty, or ends in a line feed and the session's count is not 0.
   */
  lemma SessionMayAppendIff(decode: Decoder, steps: seq<Step>, line: Bytes, reach: nat)
    requires Lines(steps) && Run(decode, steps).writer.Some?
    ensures
      var w := Run(decode, steps);
      Begins(w.data, WriterAttempt(w.writer.value, line, reach)) <==>
        |line| <= MAX_TRACE_EVENT_BYTES && (w.data == [] || (EndsWithLf(w.data) && w.writer.value > 0))
  {
    hide Run;
    EveryRunIsAccounted(decode, steps);
    assert LineCount([]) == 0;
  }

  lemma RunSnoc(decode: Decoder, steps: seq<Step>, step: Step)
    ensures Run(decode, steps + [step]) == Next(decode, Run(decode, steps), step)
  {
    assert (steps + [step])[..|steps|] == steps;
  }

  lemma FreshRun(decode: Decoder)
    ensures Run(decode, []) == FRESH && LoadTrace(decode, Some([])) == Ok([])
  {
    assert SplitLines([]) == [];
  }

  /**
   The count can be 0 in a file that has begun: a new session's checkpoint is reconciled, the first
   event is written, and the process dies before the checkpoint is.  The resumed session is refused
   every append until it is reconciled.
   */
  lemma OrphanedFirstEventBlocks(decode: Decoder, first: Bytes) returns (steps: seq<Step>)
    requires IsRecord(first) && |first| <= MAX_TRACE_EVENT_BYTES
    ensures
      var w := Run(decode, steps);
      && w.data == first && w.writer == Some(0) && w.orphaned == 1
      && forall line, reach :: !Begins(w.data, WriterAttempt(0, line, reach))
  {
    FreshRun(decode);
    hide Run, LoadTrace;
    RunSnoc(decode, [], NewSession);
    steps := [] + [NewSession];
    RunSnoc(decode, steps, Reconcile(true));
    steps := steps + [Reconcile(true)];
    assert Run(decode, steps) == World([], Some(Some(0)), None, 0, 0);
    RunSnoc(decode, steps, Resume);
    steps := steps + [Resume];
    assert Run(decode, steps) == World([], Some(Some(0)), Some(0), 0, 0);
    FirstEvent(first);
    RunSnoc(decode, steps, Append(first, |first|, true));
    steps := steps + [Append(first, |first|, true)];
    assert Run(decode, steps) == World(first, Some(Some(0)), Some(1), 1, 0);
    RunSnoc(decode, steps, Crash);
    steps := steps + [Crash];
    RunSnoc(decode, steps, Resume);
    steps := steps + [Resume];
  }

  lemma FirstEvent(line: Bytes)
    requires line != [] && |line| <= MAX_TRACE_EVENT_BYTES
    ensures AfterAttempt([], WriterAttempt(0, line, |line|)) == line && AppendSucceeds([], 0, line, |line|, true)
  {
    assert [] + line == line;
  }

  lemma NextEvent(data: Bytes, count: nat, line: Bytes)
    requires EndsWithLf(data) && count > 0 && |line| <= MAX_TRACE_EVENT_BYTES
    ensures AfterAttempt(data, WriterAttempt(count, line, |line|)) == data + line
    ensures AppendSucceeds(data, count, line, |line|, true)
  {}

  /**
   A wrong number: the second of three appends is written whole but its sync raises, and the third is
   reported as line 2.
   */
  lemma FailedSyncMisnumbers(decode: Decoder, line: Bytes) returns (steps: seq<Step>)
    requires IsRecord(line) && |line| <= MAX_TRACE_EVENT_BYTES
    ensures
      var w := Run(decode, steps);
      var after := AfterAttempt(w.data, WriterAttempt(1, line, |line|));
      && w.writer == Some(1) && AppendSucceeds(w.data, 1, line, |line|, true)
      && CheckAppend(w.data, line, Some(2)).Ok? && CheckAppend(w.data, line, Some(2)).value.lineNumber == Some(2)
      && LineCount(after) == 3
  {
    FreshRun(decode);
    hide Run, LoadTrace, LineCount, AfterAttempt;
    RunSnoc(decode, [], Resume);
    steps := [] + [Resume];
    assert Run(decode, steps) == World([], None, Some(0), 0, 0);
    FirstEvent(line);
    RunSnoc(decode, steps, Append(line, |line|, true));
    steps := steps + [Append(line, |line|, true)];
    assert Run(decode, steps) == World(line, None, Some(1), 1, 0);
    NextEvent(line, 1, line);
    RunSnoc(decode, steps, Append(line, |line|, false));
    steps := steps + [Append(line, |line|, false)];
    assert Run(decode, steps) == World(line + line, None, Some(1), 1, 1);
    assert EndsWithLf(line + line);
    NextEvent(line + line, 1, line);
    RecordCountsOne(line);
    LineCountConcat(line, line);
    LineCountConcat(line + line, line);
  }
}
