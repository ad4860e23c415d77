/**
 When a planned cleanup executes and what it may remove, from the readings of the plan and the state at
 execution alone.
 */
module CleanPermission {
  import opened Wrappers
  import opened TraceBytes
  import opened LineRanges
  import opened TraceRewrite
  import opened WorkspaceLock
  import opened CleanPlan

  /** The lock was free when planned, or a forced cleanup's own process held it. */
  ghost predicate LockPermits(o: LockObservation, force: bool) {
    o == NoLockFile || o == Unlocked || (force && o.LockedBy? && o.liveness == Self)
  }

  /** The executing process gets the lock, or it is still its own. */
  ghost predicate LockHolds(o: LockObservation, force: bool, lock: Acquisition) {
    || lock == Acquired
    || (force && o.LockedBy? && o.liveness == Self && lock.holder.Some? && lock.liveness == Self)
  }

  /** The checkpoint counts its lines, and neither they nor the current trial's begin lie behind the trace's end. */
  ghost predicate CheckpointPermits(checkpoint: Option<Checkpoint>, totalLines: nat) {
    checkpoint.Some? ==>
      && checkpoint.value.traceLineCount.Some? && checkpoint.value.traceLineCount.value <= totalLines
      && forall n: LineNumber :: n > totalLines ==> !TrialBeginsAt(checkpoint.value, n)
  }

  ghost predicate TrialBeginsAt(checkpoint: Checkpoint, n: LineNumber) {
    checkpoint.currentTrial.Some? && checkpoint.currentTrial.value.hasOperations
    && checkpoint.currentTrial.value.startLine == Some(n)
  }

  /** Inside the checkpoint's session, the session of a living holder of the lock, or the current trial. */
  ghost predicate MustStay(events: seq<Event>, checkpoint: Option<Checkpoint>, o: LockObservation, totalLines: nat, n: int) {
    || (checkpoint.Some? && InSpan(events, checkpoint.value.session, n))
    || (o.LockedBy? && o.liveness != Gone && InSpan(events, o.holder.session, n))
    || (checkpoint.Some? && n <= totalLines && exists m: LineNumber :: m <= n && TrialBeginsAt(checkpoint.value, m))
  }

  ghost predicate Old(events: seq<Event>, checkpoint: Option<Checkpoint>, cutoff: int, n: int) {
    && 1 <= n <= |events| && events[n - 1].ts < cutoff
    && (checkpoint.Some? && checkpoint.value.traceLineCount.Some? ==> n <= checkpoint.value.traceLineCount.value)
  }

  lemma ProtectedIff(events: seq<Event>, checkpoint: Option<Checkpoint>, o: LockObservation, totalLines: nat, n: int)
    ensures Protected(events, ProtectedSessions(checkpoint, ReadWorkspaceLock(o)), TrialRange(checkpoint, totalLines), n)
      <==> MustStay(events, checkpoint, o, totalLines, n)
  {
    hide InSpan;
    if InTrial(TrialRange(checkpoint, totalLines), n) {
      assert TrialBeginsAt(checkpoint.value, checkpoint.value.currentTrial.value.startLine.value);
    }
  }

  /** What a plan may remove of the events it read. */
  lemma RemovableIff(events: seq<Event>, checkpoint: Option<Checkpoint>, o: LockObservation, cutoff: int, n: int)
    ensures Removable(events, checkpoint, ProtectedSessions(checkpoint, ReadWorkspaceLock(o)), cutoff, n)
      <==> Old(events, checkpoint, cutoff, n) && !MustStay(events, checkpoint, o, |events|, n)
  {
    hide Protected, MustStay;
    ProtectedIff(events, checkpoint, o, |events|, n);
  }

  lemma PermissionIff(r: Readings, force: bool, totalLines: nat)
    ensures
      var lock := ReadWorkspaceLock(r.lock);
      && lock.refusals + CheckpointRefusals(r.checkpoint, totalLines) == []
      && (lock.status == Free || (force && lock.status == HeldBySelf))
      <==> LockPermits(r.lock, force) && CheckpointPermits(r.checkpoint, totalLines)
  {
    if r.checkpoint.Some? {
      var trial := r.checkpoint.value.currentTrial;
      assert trial.Some? && trial.value.startLine.Some? && trial.value.hasOperations ==>
        TrialBeginsAt(r.checkpoint.value, trial.value.startLine.value);
    }
  }

  /** Every refusal has one cause. */
  lemma RefusalsIff(decode: Decoder, r: Readings, cutoff: int, plan: CleanPlan)
    requires IsPlan(decode, r, cutoff, plan)
    ensures LockProbeFailed in plan.refusals <==> r.lock == ProbeFailed
    ensures LockMetadataUnreadable in plan.refusals <==> r.lock == HolderUnreadable
    ensures LockHolderGone in plan.refusals <==> r.lock.LockedBy? && r.lock.liveness == Gone
    ensures LockHeldByOther in plan.refusals <==> r.lock.LockedBy? && r.lock.liveness == Other
    ensures CheckpointWithoutCount in plan.refusals <==>
      r.checkpoint.Some? && r.checkpoint.value.traceLineCount == None
    ensures CheckpointAhead in plan.refusals <==>
      r.checkpoint.Some? && r.checkpoint.value.traceLineCount.Some?
      && r.checkpoint.value.traceLineCount.value > plan.totalLines
    ensures TrialStartAhead in plan.refusals <==>
      r.checkpoint.Some? && exists n: LineNumber :: n > plan.totalLines && TrialBeginsAt(r.checkpoint.value, n)
  {
    hide Scan, LoadTrace, ProtectionOf, RunsOf, ChosenUnder, TrialRange, ProtectedSessions, TrialBeginsAt;
    LockRefusalsIff(r.lock);
    CheckpointRefusalsIff(r.checkpoint, plan.totalLines);
    hide ReadWorkspaceLock, CheckpointRefusals;
    var lock, more := ReadWorkspaceLock(r.lock).refusals, CheckpointRefusals(r.checkpoint, plan.totalLines);
    assert forall x :: x in plan.refusals <==> x in lock || x in more;
  }

  lemma LockRefusalsIff(o: LockObservation)
    ensures var lock := ReadWorkspaceLock(o).refusals;
      && (LockProbeFailed in lock <==> o == ProbeFailed)
      && (LockMetadataUnreadable in lock <==> o == HolderUnreadable)
      && (LockHolderGone in lock <==> o.LockedBy? && o.liveness == Gone)
      && (LockHeldByOther in lock <==> o.LockedBy? && o.liveness == Other)
      && (forall x :: x in lock ==> !(x.CheckpointWithoutCount? || x.CheckpointAhead? || x.TrialStartAhead?))
  {}

  lemma CheckpointRefusalsIff(checkpoint: Option<Checkpoint>, totalLines: nat)
    ensures var more := CheckpointRefusals(checkpoint, totalLines);
      && (CheckpointWithoutCount in more <==> checkpoint.Some? && checkpoint.value.traceLineCount == None)
      && (CheckpointAhead in more <==>
            checkpoint.Some? && checkpoint.value.traceLineCount.Some? && checkpoint.value.traceLineCount.value > totalLines)
      && (TrialStartAhead in more <==>
            checkpoint.Some? && exists n: LineNumber :: n > totalLines && TrialBeginsAt(checkpoint.value, n))
      && (forall x :: x in more ==> x.CheckpointWithoutCount? || x.CheckpointAhead? || x.TrialStartAhead?)
  {
    if checkpoint.Some? && checkpoint.value.currentTrial.Some? {
      var trial := checkpoint.value.currentTrial.value;
      assert trial.startLine.Some? && trial.hasOperations ==> TrialBeginsAt(checkpoint.value, trial.startLine.value);
    }
  }

  lemma {:induction false} ChosenIff(s: seq<TraceLine>, remove: TraceLine -> bool)
    ensures Chosen(s, remove) != [] <==> exists i :: 0 <= i < |s| && remove(s[i])
  {
    if s != [] {
      ChosenIff(s[..|s| - 1], remove);
      var front := s[..|s| - 1];
      assert forall i :: 0 <= i < |front| ==> front[i] == s[i];
    }
  }

  /** Some line is old enough and need not stay, by the events that were read with it. */
  ghost predicate SomethingRemovable(
      lines: seq<TraceLine>, spanEvents: seq<Event>, checkpoint: Option<Checkpoint>, o: LockObservation, cutoff: int)
  {
    exists i :: 0 <= i < |lines| && Old(EventsOf(lines), checkpoint, cutoff, lines[i].number)
      && !MustStay(spanEvents, checkpoint, o, |lines|, lines[i].number)
  }

  function EventsOf(lines: seq<TraceLine>): (e: seq<Event>)
    ensures |e| == |lines|
  {
    seq(|lines|, i requires 0 <= i < |lines| => lines[i].event)
  }

  lemma SomethingIff(
      r: Readings, cutoff: int, texts: seq<Bytes>, lines: seq<TraceLine>, spanEvents: seq<Event>, ranges: seq<LineRange>)
    requires IsScan(texts, lines)
    requires ProtectionOf(spanEvents, ProtectedSessions(r.checkpoint, ReadWorkspaceLock(r.lock)),
      TrialRange(r.checkpoint, |lines|), ranges)
    ensures ChosenUnder(r, cutoff, lines, ranges) != [] <==>
      SomethingRemovable(lines, spanEvents, r.checkpoint, r.lock, cutoff)
  {
    hide Covers, NormalForm, Protected, MustStay;
    var remove := RemovableUnder(ranges, Boundary(r.checkpoint), cutoff);
    ChosenIff(lines, remove);
    forall i | 0 <= i < |lines|
      ensures remove(lines[i]) <==>
        && Old(EventsOf(lines), r.checkpoint, cutoff, lines[i].number)
        && !MustStay(spanEvents, r.checkpoint, r.lock, |lines|, lines[i].number)
    {
      ProtectedIff(spanEvents, r.checkpoint, r.lock, |lines|, lines[i].number);
    }
  }

  /** The trace has as many events and bytes as were read. */
  ghost predicate SameSize(decode: Decoder, trace: Option<Bytes>, totalLines: nat, size: nat) {
    && trace.Some? && |trace.value| == size
    && LoadTrace(decode, trace).Ok? && |LoadTrace(decode, trace).value| == totalLines
  }

  /** The same lines have to stay as when the plan was made. */
  ghost predicate SameStay(
      events: seq<Event>, spanEvents: seq<Event>, checkpoint: Option<Checkpoint>, o: LockObservation, totalLines: nat)
  {
    forall n :: MustStay(events, checkpoint, o, totalLines, n) <==> MustStay(spanEvents, checkpoint, o, totalLines, n)
  }

  lemma ProtectionIff(
      decode: Decoder, r: Readings, cutoff: int, plan: CleanPlan, trace: Option<Bytes>)
    requires IsPlan(decode, r, cutoff, plan) && LoadTrace(decode, trace).Ok?
    ensures ProtectionMatches(decode, plan, trace, r.checkpoint) <==>
      SameStay(LoadTrace(decode, trace).value, LoadTrace(decode, r.forSpans).value, r.checkpoint, r.lock, plan.totalLines)
  {
    hide LoadTrace, Scan, Covers, NormalForm, Protected, MustStay, RunsOf, ChosenUnder;
    var events, spanEvents := LoadTrace(decode, trace).value, LoadTrace(decode, r.forSpans).value;
    forall n
      ensures Protected(events, plan.protectedSessions, TrialRange(r.checkpoint, plan.totalLines), n) <==>
        MustStay(events, r.checkpoint, r.lock, plan.totalLines, n)
      ensures Protected(spanEvents, plan.protectedSessions, TrialRange(r.checkpoint, plan.totalLines), n) <==>
        MustStay(spanEvents, r.checkpoint, r.lock, plan.totalLines, n)
    {
      ProtectedIff(events, r.checkpoint, r.lock, plan.totalLines, n);
      ProtectedIff(spanEvents, r.checkpoint, r.lock, plan.totalLines, n);
    }
    hide ProtectedSessions, TrialRange, ReadWorkspaceLock;
  }

  /**
   A plan executes if and only if its readings permit it, something was removable by them, and nothing
   they say of the lock, the trace's size, the checkpoint and the lines that have to stay has changed.
   */
  lemma ExecutesIff(
      decode: Decoder, r: Readings, cutoff: int, plan: CleanPlan, force: bool, lock: Acquisition,
      trace: Option<Bytes>, checkpoint: Option<Checkpoint>)
    requires IsPlan(decode, r, cutoff, plan)
    ensures
      var (lines, size) := Scan(decode, r.forEvents, r.forRanges).value;
      var spanEvents := LoadTrace(decode, r.forSpans).value;
      Executes(decode, plan, force, lock, trace, checkpoint) <==>
        && LockPermits(r.lock, force) && CheckpointPermits(r.checkpoint, |lines|)
        && SomethingRemovable(lines, spanEvents, r.checkpoint, r.lock, cutoff)
        && LockHolds(r.lock, force, lock) && SameSize(decode, trace, |lines|, size) && checkpoint == r.checkpoint
        && SameStay(LoadTrace(decode, trace).value, spanEvents, checkpoint, r.lock, |lines|)
  {
    hide LoadTrace, Scan, ProtectionMatches, ProtectionOf, SomethingRemovable, SameStay, LockPermits, CheckpointPermits,
      CheckpointRefusals, TrialRange, ProtectedSessions, RunsOf, ChosenUnder, MustStay;
    var (lines, size) := Scan(decode, r.forEvents, r.forRanges).value;
    var spanEvents := LoadTrace(decode, r.forSpans).value;
    PermissionIff(r, force, |lines|);
    var texts := ScannedTexts(decode, r);
    SomethingIff(r, cutoff, texts, lines, spanEvents, plan.protectedRanges);
    if LoadTrace(decode, trace).Ok? {
      ProtectionIff(decode, r, cutoff, plan, trace);
    }
  }

  lemma ScannedTexts(decode: Decoder, r: Readings) returns (texts: seq<Bytes>)
    requires Scan(decode, r.forEvents, r.forRanges).Ok?
    ensures IsScan(texts, Scan(decode, r.forEvents, r.forRanges).value.0)
  {
    hide LoadTrace, SplitLines, TotalLength;
    texts := if r.forRanges == None then [] else SplitLines(r.forRanges.value);
  }
}
