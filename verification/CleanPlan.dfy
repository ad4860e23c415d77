/**
 Planning and executing a trace cleanup.  A plan protects the spans of live sessions, the lines
 behind the checkpoint and the current trial; execution revalidates it and rewrites the file.
 */
module CleanPlan {
  import opened Wrappers
  import opened TraceBytes
  import opened LineRanges
  import opened TraceRewrite
  import opened WorkspaceLock

  const MICROS_PER_DAY := 86400000000

  type LineNumber = n: int | n >= 1 witness 1

  datatype CurrentTrial = CurrentTrial(hasOperations: bool, startLine: Option<LineNumber>)

  /** The checkpoint; `other` stands for the fields cleanup does not read. */
  datatype Checkpoint = Checkpoint(
    session: string, traceLineCount: Option<nat>, currentTrial: Option<CurrentTrial>, other: string)

  /** What the probe and the lock file show. */
  datatype LockObservation =
    | NoLockFile | ProbeFailed | HolderUnreadable | Unlocked | LockedBy(holder: Holder, liveness: Liveness)

  datatype LockStatus = Free | HeldBySelf | HeldByOther | UnknownStatus

  datatype Refusal =
    | LockProbeFailed | LockMetadataUnreadable | LockHolderGone | LockHeldByOther
    | CheckpointWithoutCount | CheckpointAhead | TrialStartAhead

  datatype LockSnapshot = LockSnapshot(status: LockStatus, active: Option<Holder>, refusals: seq<Refusal>)

  /** `_read_workspace_lock`. */
  function ReadWorkspaceLock(o: LockObservation): LockSnapshot {
    match o
    case NoLockFile => LockSnapshot(Free, None, [])
    case ProbeFailed => LockSnapshot(UnknownStatus, None, [LockProbeFailed])
    case HolderUnreadable => LockSnapshot(UnknownStatus, None, [LockMetadataUnreadable])
    case Unlocked => LockSnapshot(Free, None, [])
    case LockedBy(holder, liveness) =>
      match liveness
      case Gone => LockSnapshot(UnknownStatus, None, [LockHolderGone])
      case Self => LockSnapshot(HeldBySelf, Some(holder), [])
      case Other => LockSnapshot(HeldByOther, Some(holder), [LockHeldByOther])
  }

  datatype SessionSpan = SessionSpan(session: string, first: nat, last: nat, count: nat)

  predicate OfSession(events: seq<Event>, i: nat, session: string)
    requires i < |events|
  {
    events[i].session == Some(session)
  }

  function CountOf(events: seq<Event>, session: string): nat {
    if events == [] then 0
    else CountOf(events[..|events| - 1], session) + if OfSession(events, |events| - 1, session) then 1 else 0
  }

  /** The span from the first to the last event of its session. */
  ghost predicate IsSpan(events: seq<Event>, span: SessionSpan) {
    && 1 <= span.first <= span.last <= |events|
    && OfSession(events, span.first - 1, span.session) && OfSession(events, span.last - 1, span.session)
    && (forall i :: 0 <= i < |events| && OfSession(events, i, span.session) ==> span.first <= i + 1 <= span.last)
    && span.count == CountOf(events, span.session)
  }

  /** One span for every session, in the order in which the sessions begin. */
  ghost predicate AreSpans(events: seq<Event>, spans: seq<SessionSpan>) {
    && (forall k :: 0 <= k < |spans| ==> IsSpan(events, spans[k]))
    && (forall j, k :: 0 <= j < k < |spans| ==> spans[j].first < spans[k].first)
    && (forall i :: 0 <= i < |events| && events[i].session.Some? ==> HasSpan(spans, events[i].session.value))
  }

  predicate HasSpan(spans: seq<SessionSpan>, session: string) {
    exists k :: 0 <= k < |spans| && spans[k].session == session
  }

  lemma SpanOfPrefix(events: seq<Event>, e: Event, span: SessionSpan)
    requires IsSpan(events, span) && e.session != Some(span.session)
    ensures IsSpan(events + [e], span)
  {
    var longer := events + [e];
    assert longer[..|events|] == events;
    assert forall i :: 0 <= i < |events| ==> longer[i] == events[i];
    assert forall i, s :: 0 <= i < |events| ==> OfSession(longer, i, s) == OfSession(events, i, s);
  }

  lemma SpanGrows(events: seq<Event>, e: Event, span: SessionSpan)
    requires IsSpan(events, span) && e.session == Some(span.session)
    ensures IsSpan(events + [e], span.(last := |events| + 1, count := span.count + 1))
  {
    var longer := events + [e];
    assert longer[..|events|] == events;
    assert forall i :: 0 <= i < |events| ==> longer[i] == events[i];
    assert forall i, s :: 0 <= i < |events| ==> OfSession(longer, i, s) == OfSession(events, i, s);
  }

  lemma {:induction false} NoEventNoCount(events: seq<Event>, session: string)
    requires forall i :: 0 <= i < |events| ==> !OfSession(events, i, session)
    ensures CountOf(events, session) == 0
  {
    if events != [] {
      var front := events[..|events| - 1];
      assert forall i :: 0 <= i < |front| ==> OfSession(front, i, session) == OfSession(events, i, session);
      NoEventNoCount(front, session);
    }
  }

  lemma SpanBegins(events: seq<Event>, e: Event, session: string)
    requires e.session == Some(session)
    requires forall i :: 0 <= i < |events| ==> !OfSession(events, i, session)
    ensures IsSpan(events + [e], SessionSpan(session, |events| + 1, |events| + 1, 1))
  {
    var longer := events + [e];
    assert longer[..|events|] == events;
    assert forall i :: 0 <= i < |events| ==> longer[i] == events[i];
    assert forall i, s :: 0 <= i < |events| ==> OfSession(longer, i, s) == OfSession(events, i, s);
    NoEventNoCount(events, session);
  }

  /** Where the session's span is kept, or the number of spans. */
  method FindSpan(spans: seq<SessionSpan>, session: string) returns (k: nat)
    ensures k <= |spans| && (k < |spans| ==> spans[k].session == session)
    ensures k == |spans| <==> !HasSpan(spans, session)
  {
    k := 0;
    while k < |spans| && spans[k].session != session
      invariant k <= |spans| && forall j :: 0 <= j < k ==> spans[j].session != session
    {
      k := k + 1;
    }
  }

  /** `inspect_trace_session_spans`; the dictionary keeps its sessions in order of first occurrence. */
  method InspectSessionSpans(events: seq<Event>) returns (spans: seq<SessionSpan>)
    ensures AreSpans(events, spans)
  {
    hide IsSpan;
    spans := [];
    for n := 0 to |events|
      invariant AreSpans(events[..n], spans)
      invariant forall k :: 0 <= k < |spans| ==> spans[k].first <= n
    {
      var e := events[n];
      assert events[..n + 1] == events[..n] + [e];
      ghost var before := spans;
      if e.session == None {
        forall k | 0 <= k < |spans| ensures IsSpan(events[..n + 1], spans[k]) {
          SpanOfPrefix(events[..n], e, spans[k]);
        }
      } else {
        var k := FindSpan(spans, e.session.value);
        if k == |spans| {
          spans := spans + [SessionSpan(e.session.value, n + 1, n + 1, 1)];
        } else {
          spans := spans[k := spans[k].(last := n + 1, count := spans[k].count + 1)];
        }
        NextSpans(events[..n], e, before, spans, k);
      }
    }
    assert events[..|events|] == events;
  }

  lemma NextSpans(events: seq<Event>, e: Event, before: seq<SessionSpan>, after: seq<SessionSpan>, k: nat)
    requires AreSpans(events, before) && e.session.Some? && k <= |before|
    requires forall j :: 0 <= j < |before| ==> before[j].first <= |events|
    requires k < |before| ==> before[k].session == e.session.value
    requires k == |before| <==> !HasSpan(before, e.session.value)
    requires after == if k == |before| then before + [SessionSpan(e.session.value, |events| + 1, |events| + 1, 1)]
      else before[k := before[k].(last := |events| + 1, count := before[k].count + 1)]
    ensures AreSpans(events + [e], after)
    ensures forall j :: 0 <= j < |after| ==> after[j].first <= |events| + 1
  {
    hide IsSpan;
    assert k == |before| ==> forall j :: 0 <= j < |before| ==> before[j].session != e.session.value;
    hide HasSpan;
    SessionsDiffer(events, before);
    if k == |before| {
      NoSpanNoEvent(events, before, e.session.value);
      SpanBegins(events, e, e.session.value);
    } else {
      SpanGrows(events, e, before[k]);
    }
    forall j | 0 <= j < |after| ensures IsSpan(events + [e], after[j]) {
      if j != k {
        SpanOfPrefix(events, e, before[j]);
      }
    }
    SpansStayPresent(events, e, before, after, k);
  }

  lemma NoSpanNoEvent(events: seq<Event>, spans: seq<SessionSpan>, session: string)
    requires AreSpans(events, spans) && !HasSpan(spans, session)
    ensures forall i :: 0 <= i < |events| ==> !OfSession(events, i, session)
  {
    hide IsSpan, HasSpan;
  }

  lemma SpansStayPresent(events: seq<Event>, e: Event, before: seq<SessionSpan>, after: seq<SessionSpan>, k: nat)
    requires e.session.Some? && k < |after| && |before| <= |after| && after[k].session == e.session.value
    requires forall i :: 0 <= i < |events| && events[i].session.Some? ==> HasSpan(before, events[i].session.value)
    requires forall j :: 0 <= j < |before| ==> after[j].session == before[j].session
    ensures var longer := events + [e];
      forall i :: 0 <= i < |longer| && longer[i].session.Some? ==> HasSpan(after, longer[i].session.value)
  {
    var longer := events + [e];
    forall i | 0 <= i < |longer| && longer[i].session.Some? ensures HasSpan(after, longer[i].session.value) {
      if i < |events| {
        assert HasSpan(before, events[i].session.value);
        var j :| 0 <= j < |before| && before[j].session == events[i].session.value;
        assert after[j].session == before[j].session;
      } else {
        assert after[k].session == e.session.value;
      }
    }
  }

  lemma SessionsDiffer(events: seq<Event>, spans: seq<SessionSpan>)
    requires AreSpans(events, spans)
    ensures forall j, k :: 0 <= j < k < |spans| ==> spans[j].session != spans[k].session
  {
    forall j, k | 0 <= j < k < |spans| ensures spans[j].session != spans[k].session {
      assert IsSpan(events, spans[j]) && IsSpan(events, spans[k]);
      assert OfSession(events, spans[j].first - 1, spans[j].session);
      assert OfSession(events, spans[k].first - 1, spans[k].session);
    }
  }

  /** Line `n` lies between two events of the session, or is one. */
  ghost predicate InSpan(events: seq<Event>, session: string, n: int) {
    exists i, j :: 0 <= i < |events| && 0 <= j < |events| && OfSession(events, i, session)
      && OfSession(events, j, session) && i + 1 <= n <= j + 1
  }

  ghost predicate InTrial(trial: Option<LineRange>, n: int) {
    trial.Some? && trial.value.first <= n <= trial.value.last
  }

  ghost predicate Protected(events: seq<Event>, sessions: set<string>, trial: Option<LineRange>, n: int) {
    (exists s :: s in sessions && InSpan(events, s, n)) || InTrial(trial, n)
  }

  /** The spans of the given sessions, as line ranges. */
  function SpanRanges(spans: seq<SessionSpan>, sessions: set<string>): seq<LineRange> {
    if spans == [] then []
    else
      var last := spans[|spans| - 1];
      SpanRanges(spans[..|spans| - 1], sessions)
      + if last.session in sessions then [LineRange(last.first, last.last)] else []
  }

  lemma {:induction false} SpanRangesCover(spans: seq<SessionSpan>, sessions: set<string>, n: int)
    ensures Covers(SpanRanges(spans, sessions), n) <==>
      exists k :: 0 <= k < |spans| && spans[k].session in sessions && spans[k].first <= n <= spans[k].last
  {
    if spans != [] {
      var front, last := spans[..|spans| - 1], spans[|spans| - 1];
      SpanRangesCover(front, sessions, n);
      CoversSnoc(SpanRanges(front, sessions), LineRange(last.first, last.last), n);
      assert SpanRanges(front, sessions) + [] == SpanRanges(front, sessions);
      if k :| 0 <= k < |front| && front[k].session in sessions && front[k].first <= n <= front[k].last {
        assert spans[k] == front[k];
      }
      if k :| 0 <= k < |spans| && spans[k].session in sessions && spans[k].first <= n <= spans[k].last {
        assert k == |front| || front[k] == spans[k];
      }
    }
  }

  lemma {:induction false} SpanRangesWellFormed(spans: seq<SessionSpan>, sessions: set<string>)
    requires forall k :: 0 <= k < |spans| ==> 1 <= spans[k].first <= spans[k].last
    ensures forall i :: 0 <= i < |SpanRanges(spans, sessions)| ==> LineRanges.WellFormed(SpanRanges(spans, sessions)[i])
  {
    if spans != [] {
      SpanRangesWellFormed(spans[..|spans| - 1], sessions);
    }
  }

  /** The protected spans cover exactly the lines inside protected sessions. */
  lemma SpansProtect(events: seq<Event>, spans: seq<SessionSpan>, sessions: set<string>, n: int)
    requires AreSpans(events, spans)
    ensures Covers(SpanRanges(spans, sessions), n) <==> exists s :: s in sessions && InSpan(events, s, n)
  {
    SpanRangesCover(spans, sessions, n);
    if k :| 0 <= k < |spans| && spans[k].session in sessions && spans[k].first <= n <= spans[k].last {
      assert IsSpan(events, spans[k]);
      SpanContains(events, spans[k], n);
    }
    if s :| s in sessions && InSpan(events, s, n) {
      var i, j :| 0 <= i < |events| && 0 <= j < |events| && OfSession(events, i, s)
        && OfSession(events, j, s) && i + 1 <= n <= j + 1;
      assert HasSpan(spans, events[i].session.value);
      var k :| 0 <= k < |spans| && spans[k].session == s;
      assert IsSpan(events, spans[k]);
    }
  }

  lemma SpanContains(events: seq<Event>, span: SessionSpan, n: int)
    requires IsSpan(events, span)
    ensures span.first <= n <= span.last ==> InSpan(events, span.session, n)
  {
    if span.first <= n <= span.last {
      var i, j := span.first - 1, span.last - 1;
      assert OfSession(events, i, span.session) && OfSession(events, j, span.session);
    }
  }

  /** The normal form of the protected lines. */
  ghost predicate ProtectionOf(events: seq<Event>, sessions: set<string>, trial: Option<LineRange>, ranges: seq<LineRange>) {
    NormalForm(ranges) && forall n :: Covers(ranges, n) <==> Protected(events, sessions, trial, n)
  }

  /** `_protected_line_ranges`. */
  method ProtectedLineRanges(events: seq<Event>, sessions: set<string>, trial: Option<LineRange>)
    returns (ranges: seq<LineRange>)
    requires trial.Some? ==> LineRanges.WellFormed(trial.value)
    ensures ProtectionOf(events, sessions, trial, ranges)
  {
    hide Covers, NormalForm, InSpan;
    var spans := InspectSessionSpans(events);
    var all := SpanRanges(spans, sessions);
    assert forall k :: 0 <= k < |spans| ==> IsSpan(events, spans[k]);
    SpanRangesWellFormed(spans, sessions);
    ghost var spanRanges := all;
    if trial.Some? {
      all := all + [trial.value];
    }
    ranges := MergeLineRanges(all);
    forall n ensures Covers(ranges, n) <==> Protected(events, sessions, trial, n) {
      SpansProtect(events, spans, sessions, n);
      if trial.Some? {
        CoversSnoc(spanRanges, trial.value, n);
      }
    }
  }

  lemma ProtectionIsUnique(
      events: seq<Event>, sessions: set<string>, trial: Option<LineRange>, a: seq<LineRange>, b: seq<LineRange>)
    requires ProtectionOf(events, sessions, trial, a) && ProtectionOf(events, sessions, trial, b)
    ensures a == b
  {
    hide Covers, NormalForm, Protected;
    NormalFormIsUnique(a, b);
  }

  /** `_current_trial_protected_line_range`. */
  function TrialRange(checkpoint: Option<Checkpoint>, totalLines: nat): (r: Option<LineRange>)
    ensures r.Some? ==> LineRanges.WellFormed(r.value)
  {
    if checkpoint == None || checkpoint.value.currentTrial == None then None
    else
      var trial := checkpoint.value.currentTrial.value;
      if !trial.hasOperations || trial.startLine == None || trial.startLine.value > totalLines then None
      else Some(LineRange(trial.startLine.value, totalLines))
  }

  function ProtectedSessions(checkpoint: Option<Checkpoint>, lock: LockSnapshot): set<string> {
    (if checkpoint.Some? then {checkpoint.value.session} else {})
    + if lock.active.Some? then {lock.active.value.session} else {}
  }

  function Boundary(checkpoint: Option<Checkpoint>): Option<nat> {
    if checkpoint == None then None else checkpoint.value.traceLineCount
  }

  /** What is hashed as the protected-session snapshot; the hash is taken to be injective. */
  datatype Protection = Protection(
    sessions: set<string>, ranges: seq<LineRange>, boundary: Option<nat>, trial: Option<LineRange>)

  datatype CleanPlan = CleanPlan(
    totalLines: nat,
    fileSize: nat,
    protectedSessions: set<string>,
    protectedRanges: seq<LineRange>,
    boundary: Option<nat>,
    lockStatus: LockStatus,
    cutoff: int,
    removableLines: seq<LineRange>,
    removableBytes: seq<ByteRange>,
    removableCount: nat,
    refusals: seq<Refusal>,
    checkpoint: Option<Checkpoint>,
    protection: Option<Protection>)
  {
    /** `can_execute` */
    predicate CanExecute() {
      refusals == [] && lockStatus == Free && removableCount > 0
    }

    /** `can_execute_with_force_inactive_only` */
    predicate CanForce() {
      refusals == [] && (lockStatus == Free || lockStatus == HeldBySelf) && removableCount > 0
    }
  }

  /** `_is_removable_trace_line` under a plan's protection. */
  function RemovableUnder(ranges: seq<LineRange>, boundary: Option<nat>, cutoff: int): TraceLine -> bool {
    (line: TraceLine) =>
      !Covers(ranges, line.number)
      && (boundary.Some? ==> line.number <= boundary.value)
      && line.event.ts < cutoff
  }

  /** Old, in front of the checkpoint, and in no protected span. */
  ghost predicate Removable(
      events: seq<Event>, checkpoint: Option<Checkpoint>, sessions: set<string>, cutoff: int, n: int)
  {
    && 1 <= n <= |events|
    && events[n - 1].ts < cutoff
    && (Boundary(checkpoint).Some? ==> n <= Boundary(checkpoint).value)
    && !Protected(events, sessions, TrialRange(checkpoint, |events|), n)
  }

  function CheckpointRefusals(checkpoint: Option<Checkpoint>, totalLines: nat): seq<Refusal> {
    if checkpoint == None then []
    else
      var c := checkpoint.value;
      (if c.traceLineCount == None then [CheckpointWithoutCount] else [])
      + (if c.traceLineCount.Some? && c.traceLineCount.value > totalLines then [CheckpointAhead] else [])
      + (if c.currentTrial.Some? && c.currentTrial.value.hasOperations && c.currentTrial.value.startLine.Some?
           && c.currentTrial.value.startLine.value > totalLines then [TrialStartAhead] else [])
  }

  /** Everything planning reads, each at its own moment: nothing is locked. */
  datatype Readings = Readings(
    checkpoint: Option<Checkpoint>,
    lock: LockObservation,
    forEvents: Option<Bytes>,
    forRanges: Option<Bytes>,
    forSpans: Option<Bytes>)

  datatype CleanError =
    | NegativeKeepDays | Trace(error: TraceError) | Refused | LockBusy | StaleTrace | StaleCheckpoint | StaleSessions

  /** The plan's fields, from the scan, the merged protection and the removable runs. */
  function Assemble(r: Readings, cutoff: int, totalLines: nat, size: nat, ranges: seq<LineRange>, runs: Runs, count: nat)
    : (plan: CleanPlan)
    ensures plan.protectedRanges == ranges
  {
    var lock := ReadWorkspaceLock(r.lock);
    var sessions := ProtectedSessions(r.checkpoint, lock);
    var trial := TrialRange(r.checkpoint, totalLines);
    CleanPlan(
      totalLines, size, sessions, ranges, Boundary(r.checkpoint), lock.status, cutoff, runs.lines, runs.bytes, count,
      lock.refusals + CheckpointRefusals(r.checkpoint, totalLines),
      r.checkpoint, Some(Protection(sessions, ranges, Boundary(r.checkpoint), trial)))
  }

  function ChosenUnder(r: Readings, cutoff: int, lines: seq<TraceLine>, ranges: seq<LineRange>): seq<TraceLine> {
    Chosen(lines, RemovableUnder(ranges, Boundary(r.checkpoint), cutoff))
  }

  /** The plan that belongs to a set of readings. */
  ghost predicate IsPlan(decode: Decoder, r: Readings, cutoff: int, plan: CleanPlan) {
    var scan, spanEvents := Scan(decode, r.forEvents, r.forRanges), LoadTrace(decode, r.forSpans);
    && scan.Ok? && spanEvents.Ok?
    && var (lines, size) := scan.value;
      var chosen := ChosenUnder(r, cutoff, lines, plan.protectedRanges);
      && ProtectionOf(
        spanEvents.value, ProtectedSessions(r.checkpoint, ReadWorkspaceLock(r.lock)),
        TrialRange(r.checkpoint, |lines|), plan.protectedRanges)
      && plan == Assemble(r, cutoff, |lines|, size, plan.protectedRanges, RunsOf(chosen), |chosen|)
  }

  /** The readings determine the plan. */
  lemma PlanIsUnique(decode: Decoder, r: Readings, cutoff: int, a: CleanPlan, b: CleanPlan)
    requires IsPlan(decode, r, cutoff, a) && IsPlan(decode, r, cutoff, b)
    ensures a == b
  {
    hide ProtectionOf, Scan, LoadTrace, RunsOf, Assemble, ChosenUnder, ProtectedSessions, TrialRange, ReadWorkspaceLock;
    var (lines, size) := Scan(decode, r.forEvents, r.forRanges).value;
    ProtectionIsUnique(LoadTrace(decode, r.forSpans).value, ProtectedSessions(r.checkpoint, ReadWorkspaceLock(r.lock)),
      TrialRange(r.checkpoint, |lines|), a.protectedRanges, b.protectedRanges);
  }

  /** `compute_clean_plan`. */
  method ComputeCleanPlan(decode: Decoder, r: Readings, keepDays: int, now: int)
    returns (result: Result<CleanPlan, CleanError>)
    ensures result.Ok? ==> IsPlan(decode, r, now - keepDays * MICROS_PER_DAY, result.value)
    ensures result.Err? <==>
      keepDays < 0 || Scan(decode, r.forEvents, r.forRanges).Err? || LoadTrace(decode, r.forSpans).Err?
  {
    hide Scan, LoadTrace, ChosenUnder, RunsOf, ProtectionOf, TrialRange, ReadWorkspaceLock, ProtectedSessions, Assemble;
    if keepDays < 0 {
      return Err(NegativeKeepDays);
    }
    var cutoff := now - keepDays * MICROS_PER_DAY;
    var scan := ScanTraceLines(decode, r.forEvents, r.forRanges);
    if scan.Err? {
      return Err(Trace(scan.error));
    }
    var (lines, size) := scan.value;
    var spanEvents := LoadTrace(decode, r.forSpans);
    if spanEvents.Err? {
      return Err(Trace(spanEvents.error));
    }
    var ranges := ProtectedLineRanges(
      spanEvents.value, ProtectedSessions(r.checkpoint, ReadWorkspaceLock(r.lock)), TrialRange(r.checkpoint, |lines|));
    var chosen := ChosenUnder(r, cutoff, lines, ranges);
    var removableLines, removableBytes := RangesForTraceLines(chosen);
    return Ok(Assemble(r, cutoff, |lines|, size, ranges, Runs(removableLines, removableBytes), |chosen|));
  }

  /** How acquiring the lock for the execution turns out. */
  datatype Acquisition = Acquired | BusyWith(holder: Option<Holder>, liveness: Liveness)

  /** `_can_execute_under_existing_self_lock`, or the lock was free. */
  predicate MayProceed(plan: CleanPlan, force: bool, lock: Acquisition) {
    lock.Acquired? || (force && plan.lockStatus == HeldBySelf && lock.holder.Some? && lock.liveness == Self)
  }

  ghost predicate TraceMatches(decode: Decoder, plan: CleanPlan, trace: Option<Bytes>) {
    && trace.Some? && LoadTrace(decode, trace).Ok?
    && |LoadTrace(decode, trace).value| == plan.totalLines && |trace.value| == plan.fileSize
  }

  /** The protection recomputed now, with the plan's sessions, is the one the plan recorded. */
  ghost predicate ProtectionMatches(decode: Decoder, plan: CleanPlan, trace: Option<Bytes>, checkpoint: Option<Checkpoint>) {
    && plan.protection.Some? && LoadTrace(decode, trace).Ok?
    && var p := plan.protection.value;
      && p.sessions == plan.protectedSessions && p.boundary == Boundary(checkpoint)
      && p.trial == TrialRange(checkpoint, plan.totalLines)
      && ProtectionOf(LoadTrace(decode, trace).value, plan.protectedSessions, p.trial, p.ranges)
  }

  ghost predicate Executes(
      decode: Decoder, plan: CleanPlan, force: bool, lock: Acquisition, trace: Option<Bytes>, checkpoint: Option<Checkpoint>)
  {
    && (if force then plan.CanForce() else plan.CanExecute())
    && MayProceed(plan, force, lock)
    && TraceMatches(decode, plan, trace)
    && checkpoint == plan.checkpoint
    && ProtectionMatches(decode, plan, trace, checkpoint)
  }

  /** The first check that fails, in the order of the code. */
  ghost function ExecutionError(
      decode: Decoder, plan: CleanPlan, force: bool, lock: Acquisition, trace: Option<Bytes>, checkpoint: Option<Checkpoint>)
    : Option<CleanError>
  {
    if !(if force then plan.CanForce() else plan.CanExecute()) then Some(Refused)
    else if !MayProceed(plan, force, lock) then Some(LockBusy)
    else if LoadTrace(decode, trace).Err? then Some(Trace(LoadTrace(decode, trace).error))
    else if !TraceMatches(decode, plan, trace) then Some(StaleTrace)
    else if checkpoint != plan.checkpoint then Some(StaleCheckpoint)
    else if !ProtectionMatches(decode, plan, trace, checkpoint) then Some(StaleSessions)
    else None
  }

  lemma ExecutesIffNoError(
      decode: Decoder, plan: CleanPlan, force: bool, lock: Acquisition, trace: Option<Bytes>, checkpoint: Option<Checkpoint>)
    ensures Executes(decode, plan, force, lock, trace, checkpoint) <==>
      ExecutionError(decode, plan, force, lock, trace, checkpoint) == None
  {
    hide LoadTrace, ProtectionMatches, MayProceed;
  }

  datatype CleanResult = CleanResult(removedCount: nat, bytesFreed: int)

  /** The trace file, and the copy in the trash. */
  class Workspace {
    var trace: Option<Bytes>
    var backup: Option<Bytes>

    constructor (trace: Option<Bytes>)
      ensures this.trace == trace && backup == None
    {
      this.trace, backup := trace, None;
    }
  }

  /** `execute_clean_plan`; on every error the workspace stays as it is. */
  method ExecuteCleanPlan(
      decode: Decoder, plan: CleanPlan, force: bool, backup: bool, lock: Acquisition,
      workspace: Workspace, checkpoint: Option<Checkpoint>)
    returns (r: Result<CleanResult, CleanError>)
    modifies workspace
    ensures
      match ExecutionError(decode, plan, force, lock, old(workspace.trace), checkpoint)
      case Some(e) =>
        r == Err(e) && workspace.trace == old(workspace.trace) && workspace.backup == old(workspace.backup)
      case None =>
        && r == Ok(CleanResult(plan.removableCount, BytesIn(plan.removableBytes)))
        && old(workspace.trace).Some?
        && workspace.trace == Some(Rewritten(old(workspace.trace).value, plan.removableBytes))
        && workspace.backup == if backup then old(workspace.trace) else old(workspace.backup)
  {
    if !(if force then plan.CanForce() else plan.CanExecute()) {
      return Err(Refused);
    }
    if !MayProceed(plan, force, lock) {
      return Err(LockBusy);
    }
    var trace := workspace.trace;
    var events := LoadTrace(decode, trace);
    if events.Err? {
      return Err(Trace(events.error));
    }
    if trace == None || |events.value| != plan.totalLines || |trace.value| != plan.fileSize {
      return Err(StaleTrace);
    }
    if checkpoint != plan.checkpoint {
      return Err(StaleCheckpoint);
    }
    if plan.protection == None {
      return Err(StaleSessions);
    }
    hide LoadTrace, ProtectionOf, Rewritten;
    var trial := TrialRange(checkpoint, plan.totalLines);
    var ranges := ProtectedLineRanges(events.value, plan.protectedSessions, trial);
    forall other | ProtectionOf(events.value, plan.protectedSessions, trial, other) ensures other == ranges {
      ProtectionIsUnique(events.value, plan.protectedSessions, trial, other, ranges);
    }
    if plan.protection.value != Protection(plan.protectedSessions, ranges, Boundary(checkpoint), trial) {
      return Err(StaleSessions);
    }
    if backup {
      var target := new Target();
      var source := new Source(trace.value);
      CopyBytes(source, target, None);
      WholeSlice(trace.value);
      workspace.backup := Some(target.contents);
    }
    var contents := RewriteTraceFile(trace.value, plan.removableBytes);
    workspace.trace := Some(contents);
    return Ok(CleanResult(plan.removableCount, BytesIn(plan.removableBytes)));
  }

  lemma WholeSlice(data: Bytes)
    ensures [] + Slice(data, 0, |data|) == data
  {
    assert data[0..|data|] == data;
  }
}
