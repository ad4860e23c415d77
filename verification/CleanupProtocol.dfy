/**
 Several processes around one workspace: they take and release the lock in small steps, append and
 save checkpoints while they hold it, read the trace for a plan without any lock, and execute plans.
 Any process may die at any step.  A step that is not enabled changes nothing.
 */
module CleanupProtocol {
  import opened Wrappers
  import opened TraceBytes
  import opened TraceRewrite
  import opened WorkspaceLock
  import opened CleanPlan
  import opened CleanSafety

  const CLEAN_SESSION := "agent_clean_trace"

  /** Where a process is between opening the lock file and releasing the lock. */
  datatype Phase =
    | Idle
    | Probing
    | Flocked(session: string)
    | Truncated(session: string)
    | Held(session: string, wrote: Writing)
    | Dead
  {
    predicate Owns() {
      Probing? || Flocked? || Truncated? || Held?
    }

    predicate Working() {
      Idle? || Held?
    }
  }

  /** A plan in the making: how many of the three readings of the trace are done, and the cleanups before them. */
  datatype Draft = Draft(r: Readings, taken: nat, cleans: nat)

  datatype Planned = Planned(plan: CleanPlan, r: Readings, cutoff: int, cleans: nat)

  /** Where an execution is: inside the lock's context, revalidated, or with the new file written beside the old one. */
  datatype Cleaning =
    | NotCleaning
    | Entered(force: bool, lock: Acquisition)
    | Validated(force: bool, lock: Acquisition)
    | Copied(force: bool, lock: Acquisition, temp: Bytes)

  datatype Process = Process(phase: Phase, draft: Option<Draft>, plan: Option<Planned>, cleaning: Cleaning)

  const NEWBORN := Process(Idle, None, None, NotCleaning)

  datatype World = World(
    trace: Option<Bytes>,
    checkpoint: Option<Checkpoint>,
    text: LockText,
    owner: Option<ProcessId>,
    procs: map<ProcessId, Process>,
    cleans: nat)

  const START := World(None, None, Missing, None, map[], 0)

  function At(w: World, p: ProcessId): Process {
    if p in w.procs then w.procs[p] else NEWBORN
  }

  function Put(w: World, p: ProcessId, x: Process): (after: World)
    ensures forall q :: At(after, q) == if q == p then x else At(w, q)
  {
    w.(procs := w.procs[p := x])
  }

  datatype Step =
    | Open(p: ProcessId)
    | Take(p: ProcessId, session: string)
    | Truncate(p: ProcessId)
    | WriteHolder(p: ProcessId, writing: Writing)
    | GiveUp(p: ProcessId)
    | Release(p: ProcessId)
    | Probe(p: ProcessId)
    | EndProbe(p: ProcessId)
    | Crash(p: ProcessId)
    | Append(p: ProcessId, bytes: Bytes)
    | Save(p: ProcessId, checkpoint: Option<Checkpoint>)
    | BeginPlan(p: ProcessId, lock: LockObservation)
    | ReadEvents(p: ProcessId)
    | ReadRanges(p: ProcessId)
    | ReadSpans(p: ProcessId)
    | FinishPlan(p: ProcessId, plan: CleanPlan, cutoff: int)
    | Enter(p: ProcessId, force: bool)
    | EnterBusy(p: ProcessId)
    | Validate(p: ProcessId)
    | Abort(p: ProcessId)
    | Copy(p: ProcessId)
    | Replace(p: ProcessId)

  /** The lock file and the kernel's lock. */
  function LockStep(w: World, step: Step): World {
    var x := At(w, step.p);
    if x.cleaning != NotCleaning && !step.Crash? then w
    else
      match step
      case Open(p) => if x.phase == Idle && w.text == Missing then w.(text := Blank) else w
      case Take(p, session) =>
        if x.phase == Idle && w.owner == None then
          Put(w, p, x.(phase := Flocked(session))).(owner := Some(p), text := if w.text == Missing then Blank else w.text)
        else w
      case Truncate(p) =>
        if x.phase.Flocked? then Put(w, p, x.(phase := Truncated(x.phase.session))).(text := Blank) else w
      case WriteHolder(p, writing) =>
        if !x.phase.Truncated? then w
        else
          var text := AfterWriting(w.text, Holder(p, x.phase.session), writing);
          if WritingReturns(writing) then Put(w, p, x.(phase := Held(x.phase.session, writing))).(text := text)
          else Put(w, p, x.(phase := Idle)).(text := text, owner := None)
      case GiveUp(p) =>
        if x.phase.Flocked? || x.phase.Truncated? then Put(w, p, x.(phase := Idle)).(owner := None) else w
      case Release(p) =>
        if x.phase.Held? then Put(w, p, x.(phase := Idle)).(owner := None) else w
      case Probe(p) =>
        if x.phase == Idle && w.owner == None && w.text != Missing then
          Put(w, p, x.(phase := Probing)).(owner := Some(p))
        else w
      case EndProbe(p) =>
        if x.phase == Probing then Put(w, p, x.(phase := Idle)).(owner := None) else w
      case Crash(p) =>
        Put(w, p, Process(Dead, None, None, NotCleaning)).(owner := if w.owner == Some(p) then None else w.owner)
      case _ => w
  }

  /** Appends, whole or torn, and checkpoints are written by the process that holds the lock. */
  function StateStep(w: World, step: Step): World {
    var x := At(w, step.p);
    if !x.phase.Held? || x.cleaning != NotCleaning then w
    else
      match step
      case Append(p, bytes) => w.(trace := Some(if w.trace == None then bytes else w.trace.value + bytes))
      case Save(p, checkpoint) => w.(checkpoint := checkpoint)
      case _ => w
  }

  /** Planning reads one thing at a time; `lock` is whatever the probe and the lock file showed. */
  ghost function PlanStep(decode: Decoder, w: World, step: Step): World {
    var x := At(w, step.p);
    if !x.phase.Working() || x.cleaning != NotCleaning then w
    else if step.BeginPlan? then
      Put(w, step.p, x.(draft := Some(Draft(Readings(w.checkpoint, step.lock, None, None, None), 0, w.cleans))))
    else if x.draft == None then w
    else
      var d := x.draft.value;
      match step
      case ReadEvents(p) =>
        if d.taken == 0 then Put(w, p, x.(draft := Some(d.(r := d.r.(forEvents := w.trace), taken := 1)))) else w
      case ReadRanges(p) =>
        if d.taken == 1 then Put(w, p, x.(draft := Some(d.(r := d.r.(forRanges := w.trace), taken := 2)))) else w
      case ReadSpans(p) =>
        if d.taken == 2 then Put(w, p, x.(draft := Some(d.(r := d.r.(forSpans := w.trace), taken := 3)))) else w
      case FinishPlan(p, plan, cutoff) =>
        if d.taken == 3 && IsPlan(decode, d.r, cutoff, plan) then
          Put(w, p, x.(draft := None, plan := Some(Planned(plan, d.r, cutoff, d.cleans))))
        else w
      case _ => w
  }

  /** The holder that a busy process finds named is itself. */
  predicate NamesSelf(text: LockText, p: ProcessId) {
    text.Names? && text.holder.process == p
  }

  ghost function CleanStep(decode: Decoder, w: World, step: Step): World {
    var x := At(w, step.p);
    if x.plan == None || !x.phase.Working() then w
    else
      var plan := x.plan.value.plan;
      match step
      case Enter(p, force) =>
        if x.phase.Held? && x.phase.session == CLEAN_SESSION && x.cleaning == NotCleaning
          && (if force then plan.CanForce() else plan.CanExecute())
        then Put(w, p, x.(cleaning := Entered(force, Acquired))) else w
      case EnterBusy(p) =>
        if x.cleaning == NotCleaning && w.owner.Some? && NamesSelf(w.text, p)
          && plan.CanForce() && plan.lockStatus == HeldBySelf
        then Put(w, p, x.(cleaning := Entered(true, BusyWith(Some(w.text.holder), Self)))) else w
      case Validate(p) =>
        if x.cleaning.Entered? && Executes(decode, plan, x.cleaning.force, x.cleaning.lock, w.trace, w.checkpoint)
        then Put(w, p, x.(cleaning := Validated(x.cleaning.force, x.cleaning.lock))) else w
      case Abort(p) => Put(w, p, x.(cleaning := NotCleaning))
      case Copy(p) =>
        if x.cleaning.Validated? && w.trace.Some? then
          Put(w, p, x.(cleaning :=
            Copied(x.cleaning.force, x.cleaning.lock, Rewritten(w.trace.value, plan.removableBytes))))
        else w
      case Replace(p) =>
        if x.cleaning.Copied? then
          Put(w, p, x.(cleaning := NotCleaning)).(trace := Some(x.cleaning.temp), cleans := w.cleans + 1)
        else w
      case _ => w
  }

  datatype Kind = LockKind | StateKind | PlanKind | CleanKind

  function KindOf(step: Step): Kind {
    match step
    case Append(_, _) => StateKind
    case Save(_, _) => StateKind
    case BeginPlan(_, _) => PlanKind
    case ReadEvents(_) => PlanKind
    case ReadRanges(_) => PlanKind
    case ReadSpans(_) => PlanKind
    case FinishPlan(_, _, _) => PlanKind
    case Enter(_, _) => CleanKind
    case EnterBusy(_) => CleanKind
    case Validate(_) => CleanKind
    case Abort(_) => CleanKind
    case Copy(_) => CleanKind
    case Replace(_) => CleanKind
    case _ => LockKind
  }

  ghost function Next(decode: Decoder, w: World, step: Step): World {
    match KindOf(step)
    case LockKind => LockStep(w, step)
    case StateKind => StateStep(w, step)
    case PlanKind => PlanStep(decode, w, step)
    case CleanKind => CleanStep(decode, w, step)
  }

  ghost function Run(decode: Decoder, steps: seq<Step>): World {
    if steps == [] then START else Next(decode, Run(decode, steps[..|steps| - 1]), steps[|steps| - 1])
  }

  /** The text is what the process has written of its name. */
  predicate TextIsOf(text: LockText, p: ProcessId, phase: Phase)
    requires phase.Held?
  {
    WritingReturns(phase.wrote) && text == AfterWriting(Blank, Holder(p, phase.session), phase.wrote)
  }

  /** The kernel's lock has one owner, and who has finished acquiring it has written the file's text. */
  ghost predicate LockIsSound(w: World) {
    && (forall p :: w.owner == Some(p) <==> At(w, p).phase.Owns())
    && (forall p :: At(w, p).phase.Held? ==> TextIsOf(w.text, p, At(w, p).phase))
    && (forall p :: At(w, p).phase.Truncated? ==> w.text == Blank)
    && (w.owner.Some? ==> w.text != Missing)
    && (forall p :: At(w, p).cleaning != NotCleaning ==> At(w, p).phase.Working())
  }

  lemma StepKeepsLock(decode: Decoder, w: World, step: Step)
    requires LockIsSound(w)
    ensures LockIsSound(Next(decode, w, step))
  {
    match KindOf(step)
    case LockKind => LockStepKeepsLock(w, step);
    case StateKind =>
    case PlanKind => PlanStepKeepsLock(decode, w, step);
    case CleanKind => CleanStepKeepsLock(decode, w, step);
  }

  lemma LockStepKeepsLock(w: World, step: Step)
    requires LockIsSound(w)
    ensures LockIsSound(LockStep(w, step))
  {
    hide AfterWriting, WritingReturns;
    var p, after := step.p, LockStep(w, step);
    assert forall q :: q != p ==> At(after, q) == At(w, q);
    assert At(after, p).cleaning == NotCleaning || At(after, p) == At(w, p);
  }

  lemma PlanStepKeepsLock(decode: Decoder, w: World, step: Step)
    requires LockIsSound(w)
    ensures LockIsSound(PlanStep(decode, w, step))
  {
    hide IsPlan;
  }

  lemma CleanStepKeepsLock(decode: Decoder, w: World, step: Step)
    requires LockIsSound(w)
    ensures LockIsSound(CleanStep(decode, w, step))
  {
    hide Executes, Rewritten;
    var p, after := step.p, CleanStep(decode, w, step);
    assert forall q :: q != p ==> At(after, q) == At(w, q);
    assert At(after, p).phase == At(w, p).phase;
  }

  lemma {:induction false} EveryRunKeepsLock(decode: Decoder, steps: seq<Step>)
    ensures LockIsSound(Run(decode, steps))
  {
    if steps != [] {
      var front := steps[..|steps| - 1];
      EveryRunKeepsLock(decode, front);
      hide LockIsSound, Next;
      StepKeepsLock(decode, Run(decode, front), steps[|steps| - 1]);
    }
  }

  /**
   Over all runs: two processes never own the lock together; while one holds it, the file names it
   unless its own write was cut short, and then names nobody; otherwise a file that does not name the
   owner is seen only while the owner probes or is still writing its name.
   */
  lemma LockNamesItsHolder(decode: Decoder, steps: seq<Step>, p: ProcessId, q: ProcessId)
    ensures var w := Run(decode, steps);
      && (At(w, p).phase.Owns() && At(w, q).phase.Owns() ==> p == q)
      && (At(w, p).phase.Held? ==>
            && (w.text == Names(Holder(p, At(w, p).phase.session)) <==> WritesName(At(w, p).phase.wrote))
            && (!WritesName(At(w, p).phase.wrote) ==> w.text == Blank || w.text == Garbled))
      && (w.owner == Some(p) && !NamesSelf(w.text, p) ==>
            || At(w, p).phase.Probing? || At(w, p).phase.Flocked? || At(w, p).phase.Truncated?
            || (At(w, p).phase.Held? && !WritesName(At(w, p).phase.wrote)))
  {
    hide Run, At;
    EveryRunKeepsLock(decode, steps);
  }

  /** The readings done so far, and the present trace, differ by appends only. */
  ghost predicate Growing(r: Readings, taken: nat, trace: Option<Bytes>) {
    && (taken == 1 ==> Grew(r.forEvents, trace))
    && (taken == 2 ==> Grew(r.forEvents, r.forRanges) && Grew(r.forRanges, trace))
    && (taken == 3 ==> Grew(r.forEvents, r.forRanges) && Grew(r.forRanges, r.forSpans) && Grew(r.forSpans, trace))
  }

  ghost predicate DraftIsSound(w: World, x: Process) {
    x.draft.Some? ==>
      && x.draft.value.cleans <= w.cleans
      && (x.draft.value.cleans == w.cleans ==> Growing(x.draft.value.r, x.draft.value.taken, w.trace))
  }

  ghost predicate PlanIsSound(decode: Decoder, w: World, x: Process) {
    x.plan.Some? ==>
      && IsPlan(decode, x.plan.value.r, x.plan.value.cutoff, x.plan.value.plan)
      && x.plan.value.cleans <= w.cleans
      && (x.plan.value.cleans == w.cleans ==> Growing(x.plan.value.r, 3, w.trace))
  }

  ghost predicate CleaningIsSound(decode: Decoder, w: World, p: ProcessId, x: Process) {
    x.cleaning != NotCleaning ==>
      && w.owner == Some(p) && x.plan.Some?
      && (!x.cleaning.Entered? ==>
            Executes(decode, x.plan.value.plan, x.cleaning.force, x.cleaning.lock, w.trace, w.checkpoint))
      && (x.cleaning.Copied? ==>
            w.trace.Some? && x.cleaning.temp == Rewritten(w.trace.value, x.plan.value.plan.removableBytes))
  }

  ghost predicate CleanupIsSound(decode: Decoder, w: World) {
    forall p ::
      DraftIsSound(w, At(w, p)) && PlanIsSound(decode, w, At(w, p)) && CleaningIsSound(decode, w, p, At(w, p))
  }

  /** A process that finds the lock busy and goes on does hold it itself. */
  predicate IsOrderly(w: World, step: Step) {
    step.EnterBusy? ==> w.owner == Some(step.p)
  }

  ghost predicate Orderly(decode: Decoder, steps: seq<Step>) {
    steps == [] || (Orderly(decode, steps[..|steps| - 1]) && IsOrderly(Run(decode, steps[..|steps| - 1]), steps[|steps| - 1]))
  }

  /**
   The only way out of order: another process has taken the kernel's lock to probe it, or has not yet
   emptied the file, and the old name still stands.
   */
  lemma DisorderNeedsTheWindow(decode: Decoder, steps: seq<Step>, p: ProcessId)
    ensures
      var w := Run(decode, steps);
      w.owner.Some? && w.owner != Some(p) && NamesSelf(w.text, p) ==>
        var q := w.owner.value; At(w, q).phase.Probing? || At(w, q).phase.Flocked?
  {
    hide Run, At;
    EveryRunKeepsLock(decode, steps);
  }

  /** So a step is out of order only if it has no effect or is taken while the owner is in that window. */
  lemma StepsOutsideTheWindowAreOrderly(decode: Decoder, steps: seq<Step>, step: Step)
    ensures
      var w := Run(decode, steps);
      || IsOrderly(w, step) || Next(decode, w, step) == w
      || (w.owner.Some? && (At(w, w.owner.value).phase.Probing? || At(w, w.owner.value).phase.Flocked?))
  {
    if step.EnterBusy? {
      DisorderNeedsTheWindow(decode, steps, step.p);
    }
    hide Run;
  }

  lemma LockStepKeepsCleanup(decode: Decoder, w: World, step: Step)
    requires LockIsSound(w) && CleanupIsSound(decode, w)
    ensures CleanupIsSound(decode, LockStep(w, step))
  {
    hide IsPlan, Executes, Growing, Rewritten;
    var p, after := step.p, LockStep(w, step);
    assert after.trace == w.trace && after.checkpoint == w.checkpoint && after.cleans == w.cleans;
    forall q
      ensures DraftIsSound(after, At(after, q)) && PlanIsSound(decode, after, At(after, q))
        && CleaningIsSound(decode, after, q, At(after, q))
    {
      assert DraftIsSound(w, At(w, q)) && PlanIsSound(decode, w, At(w, q)) && CleaningIsSound(decode, w, q, At(w, q));
    }
  }

  lemma GrowsOn(r: Readings, taken: nat, trace: Option<Bytes>, bytes: Bytes)
    requires Growing(r, taken, trace)
    ensures Growing(r, taken, Some(if trace == None then bytes else trace.value + bytes))
  {}

  lemma StateStepKeepsCleanup(decode: Decoder, w: World, step: Step)
    requires LockIsSound(w) && CleanupIsSound(decode, w)
    ensures CleanupIsSound(decode, StateStep(w, step))
  {
    hide IsPlan, Executes, Growing, Rewritten;
    var p, after := step.p, StateStep(w, step);
    if after != w {
      assert w.owner == Some(p);
      forall q
        ensures DraftIsSound(after, At(after, q)) && PlanIsSound(decode, after, At(after, q))
          && CleaningIsSound(decode, after, q, At(after, q))
      {
        var x := At(w, q);
        assert At(after, q) == x;
        assert DraftIsSound(w, x) && PlanIsSound(decode, w, x) && CleaningIsSound(decode, w, q, x);
        if step.Append? {
          if x.draft.Some? && x.draft.value.cleans == w.cleans {
            GrowsOn(x.draft.value.r, x.draft.value.taken, w.trace, step.bytes);
          }
          if x.plan.Some? && x.plan.value.cleans == w.cleans {
            GrowsOn(x.plan.value.r, 3, w.trace, step.bytes);
          }
        }
      }
    }
  }

  lemma PlanStepKeepsCleanup(decode: Decoder, w: World, step: Step)
    requires CleanupIsSound(decode, w)
    ensures CleanupIsSound(decode, PlanStep(decode, w, step))
  {
    hide IsPlan, Executes, Rewritten;
    var p, after := step.p, PlanStep(decode, w, step);
    assert after.trace == w.trace && after.checkpoint == w.checkpoint && after.cleans == w.cleans && after.owner == w.owner;
    forall q
      ensures DraftIsSound(after, At(after, q)) && PlanIsSound(decode, after, At(after, q))
        && CleaningIsSound(decode, after, q, At(after, q))
    {
      assert DraftIsSound(w, At(w, q)) && PlanIsSound(decode, w, At(w, q)) && CleaningIsSound(decode, w, q, At(w, q));
    }
  }

  lemma CleanStepKeepsCleanup(decode: Decoder, w: World, step: Step)
    requires LockIsSound(w) && CleanupIsSound(decode, w) && IsOrderly(w, step)
    ensures CleanupIsSound(decode, CleanStep(decode, w, step))
  {
    hide IsPlan, Executes, Rewritten, Growing;
    var p, after := step.p, CleanStep(decode, w, step);
    assert CleaningIsSound(decode, w, p, At(w, p));
    forall q
      ensures DraftIsSound(after, At(after, q)) && PlanIsSound(decode, after, At(after, q))
        && CleaningIsSound(decode, after, q, At(after, q))
    {
      assert DraftIsSound(w, At(w, q)) && PlanIsSound(decode, w, At(w, q)) && CleaningIsSound(decode, w, q, At(w, q));
    }
  }

  lemma StepKeepsCleanup(decode: Decoder, w: World, step: Step)
    requires LockIsSound(w) && CleanupIsSound(decode, w) && IsOrderly(w, step)
    ensures CleanupIsSound(decode, Next(decode, w, step))
  {
    hide LockIsSound, CleanupIsSound, LockStep, StateStep, PlanStep, CleanStep;
    match KindOf(step)
    case LockKind => LockStepKeepsCleanup(decode, w, step);
    case StateKind => StateStepKeepsCleanup(decode, w, step);
    case PlanKind => PlanStepKeepsCleanup(decode, w, step);
    case CleanKind => CleanStepKeepsCleanup(decode, w, step);
  }

  lemma {:induction false} EveryOrderlyRunKeepsCleanup(decode: Decoder, steps: seq<Step>)
    requires Orderly(decode, steps)
    ensures CleanupIsSound(decode, Run(decode, steps))
  {
    if steps != [] {
      var front := steps[..|steps| - 1];
      EveryOrderlyRunKeepsCleanup(decode, front);
      EveryRunKeepsLock(decode, front);
      hide LockIsSound, CleanupIsSound, Next;
      StepKeepsCleanup(decode, Run(decode, front), steps[|steps| - 1]);
    }
  }

  /** Replacing the trace now removes exactly the lines that are removable in it now. */
  ghost predicate ReplacesExactly(decode: Decoder, w: World, p: ProcessId)
    requires w.trace.Some? && At(w, p).plan.Some?
  {
    var now, planned := w.trace.value, At(w, p).plan.value;
    && LoadTrace(decode, Some(now)).Ok?
    && var remove := RemoveNow(
        LoadTrace(decode, Some(now)).value, w.checkpoint, planned.plan.protectedSessions, planned.cutoff);
      && Next(decode, w, Replace(p)).trace == Some(Concat(KeptLines(SplitLines(now), ScanNow(decode, now), remove)))
      && planned.plan.removableCount == |Chosen(ScanNow(decode, now), remove)|
      && (w.checkpoint.Some? ==> w.checkpoint.value.session in planned.plan.protectedSessions)
  }

  lemma ReplacementWritesTheCopy(decode: Decoder, w: World, p: ProcessId)
    requires At(w, p).cleaning.Copied? && At(w, p).plan.Some? && At(w, p).phase.Working()
    ensures Next(decode, w, Replace(p)).trace == Some(At(w, p).cleaning.temp)
  {}

  lemma SoundReplacementIsExact(decode: Decoder, w: World, p: ProcessId)
    requires LockIsSound(w) && CleanupIsSound(decode, w) && At(w, p).cleaning.Copied?
    ensures w.owner == Some(p) && At(w, p).phase.Held? && w.trace.Some? && At(w, p).plan.Some?
    ensures At(w, p).plan.value.cleans == w.cleans ==> ReplacesExactly(decode, w, p)
  {
    hide IsPlan, Executes, Rewritten, LoadTrace, ScanNow, RemoveNow, KeptLines, SplitLines, Chosen, Concat, Next, At;
    var x := At(w, p);
    assert PlanIsSound(decode, w, x) && CleaningIsSound(decode, w, p, x);
    assert w.owner == Some(p) <==> x.phase.Owns();
    ReplacementWritesTheCopy(decode, w, p);
    if x.plan.value.cleans == w.cleans {
      var planned := x.plan.value;
      assert OnlyAppended(planned.r, w.trace.value);
      CommittedCleanIsExact(decode, planned.r, planned.cutoff, planned.plan, x.cleaning.force, x.cleaning.lock,
        w.trace.value, w.checkpoint);
    }
  }

  /**
   Safety of cleanup over all orderly interleavings.  The process that replaces the trace owns the
   lock, and if no other cleanup was committed since its plan was begun, it removes exactly the lines
   that are removable in the trace and under the checkpoint of that very moment.
   */
  lemma CommittedCleansAreExact(decode: Decoder, steps: seq<Step>, p: ProcessId)
    requires Orderly(decode, steps)
    requires At(Run(decode, steps), p).cleaning.Copied?
    ensures
      var w := Run(decode, steps);
      && w.owner == Some(p) && At(w, p).phase.Held? && w.trace.Some? && At(w, p).plan.Some?
      && (At(w, p).plan.value.cleans == w.cleans ==> ReplacesExactly(decode, w, p))
  {
    hide Run, At, ReplacesExactly, LockIsSound, CleanupIsSound;
    EveryRunKeepsLock(decode, steps);
    EveryOrderlyRunKeepsCleanup(decode, steps);
    SoundReplacementIsExact(decode, Run(decode, steps), p);
  }

  const FIRST := ProcessId(1, 0.0)
  const SECOND := ProcessId(2, 0.0)

  /** The parts of a world that the example below looks at. */
  ghost predicate Shows(w: World, trace: Option<Bytes>, text: LockText, owner: Option<ProcessId>, a: Process, b: Process) {
    && w.trace == trace && w.checkpoint == None && w.text == text && w.owner == owner && w.cleans == 0
    && At(w, FIRST) == a && At(w, SECOND) == b
  }

  lemma RunSnoc(decode: Decoder, steps: seq<Step>, step: Step)
    ensures Run(decode, steps + [step]) == Next(decode, Run(decode, steps), step)
  {
    assert (steps + [step])[..|steps|] == steps;
  }

  const OWN_LOCK := LockedBy(Holder(FIRST, "a"), Self)
  const READINGS := ExampleReadings(None, OWN_LOCK)
  const FORCED_PLAN := ExamplePlan({"a"}, HeldBySelf, None)
  const PREPARED := Some(Planned(FORCED_PLAN, READINGS, EXAMPLE_CUTOFF, 0))
  const WAITING := BusyWith(Some(Holder(FIRST, "a")), Self)

  /** A session takes the lock and writes one old event. */
  lemma SessionBegins(decode: Decoder) returns (steps: seq<Step>)
    ensures Shows(Run(decode, steps), Some(OLD_TRACE), Names(Holder(FIRST, "a")), Some(FIRST),
      Process(Held("a", Complete), None, None, NotCleaning), NEWBORN)
  {
    steps := [Take(FIRST, "a")];
    RunSnoc(decode, [], Take(FIRST, "a"));
    assert [] + [Take(FIRST, "a")] == steps;
    assert Shows(Run(decode, steps), None, Blank, Some(FIRST), Process(Flocked("a"), None, None, NotCleaning), NEWBORN);
    RunSnoc(decode, steps, Truncate(FIRST));
    steps := steps + [Truncate(FIRST)];
    assert Shows(Run(decode, steps), None, Blank, Some(FIRST), Process(Truncated("a"), None, None, NotCleaning), NEWBORN);
    RunSnoc(decode, steps, WriteHolder(FIRST, Complete));
    steps := steps + [WriteHolder(FIRST, Complete)];
    var held := Process(Held("a", Complete), None, None, NotCleaning);
    assert Shows(Run(decode, steps), None, Names(Holder(FIRST, "a")), Some(FIRST), held, NEWBORN);
    RunSnoc(decode, steps, Append(FIRST, OLD_TRACE));
    steps := steps + [Append(FIRST, OLD_TRACE)];
  }

  /** A held lock that names nobody: the write of the name is cut short, and nobody notices. */
  lemma HeldWithoutName(decode: Decoder) returns (steps: seq<Step>)
    ensures
      var w := Run(decode, steps);
      w.owner == Some(FIRST) && At(w, FIRST).phase.Held? && ReadHolder(w.text) == None
  {
    hide Run;
    RunSnoc(decode, [], Take(FIRST, "a"));
    assert [] + [Take(FIRST, "a")] == [Take(FIRST, "a")];
    RunSnoc(decode, [Take(FIRST, "a")], Truncate(FIRST));
    steps := [Take(FIRST, "a")] + [Truncate(FIRST)];
    StartsEmpty(decode);
    RunSnoc(decode, steps, WriteHolder(FIRST, ShortWrite(NameIncomplete)));
    steps := steps + [WriteHolder(FIRST, ShortWrite(NameIncomplete))];
  }

  lemma StartsEmpty(decode: Decoder)
    ensures Run(decode, []) == START
  {}

  /** It plans the removal of the event under its own lock. */
  lemma SessionPlans(decode: Decoder) returns (steps: seq<Step>)
    requires decode == ExampleDecode
    ensures Shows(Run(decode, steps), Some(OLD_TRACE), Names(Holder(FIRST, "a")), Some(FIRST),
      Process(Held("a", Complete), None, PREPARED, NotCleaning), NEWBORN)
  {
    hide IsPlan, Run;
    steps := SessionBegins(decode);
    var text, lock, held := Names(Holder(FIRST, "a")), LockedBy(Holder(FIRST, "a"), Self), Held("a", Complete);
    RunSnoc(decode, steps, BeginPlan(FIRST, lock));
    steps := steps + [BeginPlan(FIRST, lock)];
    var r := Readings(None, lock, None, None, None);
    assert Shows(Run(decode, steps), Some(OLD_TRACE), text, Some(FIRST),
      Process(held, Some(Draft(r, 0, 0)), None, NotCleaning), NEWBORN);
    RunSnoc(decode, steps, ReadEvents(FIRST));
    steps := steps + [ReadEvents(FIRST)];
    r := r.(forEvents := Some(OLD_TRACE));
    assert Shows(Run(decode, steps), Some(OLD_TRACE), text, Some(FIRST),
      Process(held, Some(Draft(r, 1, 0)), None, NotCleaning), NEWBORN);
    RunSnoc(decode, steps, ReadRanges(FIRST));
    steps := steps + [ReadRanges(FIRST)];
    r := r.(forRanges := Some(OLD_TRACE));
    assert Shows(Run(decode, steps), Some(OLD_TRACE), text, Some(FIRST),
      Process(held, Some(Draft(r, 2, 0)), None, NotCleaning), NEWBORN);
    RunSnoc(decode, steps, ReadSpans(FIRST));
    steps := steps + [ReadSpans(FIRST)];
    assert Shows(Run(decode, steps), Some(OLD_TRACE), text, Some(FIRST),
      Process(held, Some(Draft(READINGS, 3, 0)), None, NotCleaning), NEWBORN);
    ExampleIsPlan({"a"}, lock, None);
    RunSnoc(decode, steps, FinishPlan(FIRST, FORCED_PLAN, EXAMPLE_CUTOFF));
    steps := steps + [FinishPlan(FIRST, FORCED_PLAN, EXAMPLE_CUTOFF)];
  }

  /** It releases the lock; another process takes it and has not written its name when the first one executes. */
  lemma SessionIsOvertaken(decode: Decoder) returns (steps: seq<Step>)
    requires decode == ExampleDecode
    ensures Shows(Run(decode, steps), Some(OLD_TRACE), Names(Holder(FIRST, "a")), Some(SECOND),
      Process(Idle, None, PREPARED, Copied(true, WAITING, [])), Process(Flocked("b"), None, None, NotCleaning))
  {
    hide Executes, Rewritten, Run;
    steps := SessionPlans(decode);
    var text, other := Names(Holder(FIRST, "a")), Process(Flocked("b"), None, None, NotCleaning);
    RunSnoc(decode, steps, Release(FIRST));
    steps := steps + [Release(FIRST)];
    assert Shows(Run(decode, steps), Some(OLD_TRACE), text, None, Process(Idle, None, PREPARED, NotCleaning), NEWBORN);
    RunSnoc(decode, steps, Take(SECOND, "b"));
    steps := steps + [Take(SECOND, "b")];
    assert Shows(Run(decode, steps), Some(OLD_TRACE), text, Some(SECOND), Process(Idle, None, PREPARED, NotCleaning), other);
    RunSnoc(decode, steps, EnterBusy(FIRST));
    steps := steps + [EnterBusy(FIRST)];
    assert Shows(Run(decode, steps), Some(OLD_TRACE), text, Some(SECOND),
      Process(Idle, None, PREPARED, Entered(true, WAITING)), other);
    OvertakenExecutes();
    RunSnoc(decode, steps, Validate(FIRST));
    steps := steps + [Validate(FIRST)];
    assert Shows(Run(decode, steps), Some(OLD_TRACE), text, Some(SECOND),
      Process(Idle, None, PREPARED, Validated(true, WAITING)), other);
    ExampleRewrite(OLD_TRACE);
    RunSnoc(decode, steps, Copy(FIRST));
    steps := steps + [Copy(FIRST)];
  }

  lemma OvertakenExecutes()
    ensures Executes(ExampleDecode, FORCED_PLAN, true, WAITING, Some(OLD_TRACE), None)
  {
    ExampleTrace(65);
    ExampleUnprotected([Event(0, Some("b"))], {"a"});
  }

  /**
   Disorder loses events.  The first process finds the lock busy and its own old name in the file, and
   goes on; the new holder appends an event between the copy and the replacement, and it is gone.
   */
  lemma OvertakenCleanupLosesAnEvent() returns (steps: seq<Step>)
    ensures
      var w := Run(ExampleDecode, steps);
      && w.owner == Some(SECOND) && At(w, SECOND).phase == Held("b", Complete)
      && w.trace == Some(OLD_TRACE + [66, LF]) && At(w, FIRST).phase == Idle
      && Next(ExampleDecode, w, Replace(FIRST)).trace == Some([])
  {
    hide Run;
    var decode := ExampleDecode;
    steps := SessionIsOvertaken(decode);
    var cleaning := Process(Idle, None, PREPARED, Copied(true, WAITING, []));
    RunSnoc(decode, steps, Truncate(SECOND));
    steps := steps + [Truncate(SECOND)];
    assert Shows(Run(decode, steps), Some(OLD_TRACE), Blank, Some(SECOND), cleaning,
      Process(Truncated("b"), None, None, NotCleaning));
    RunSnoc(decode, steps, WriteHolder(SECOND, Complete));
    steps := steps + [WriteHolder(SECOND, Complete)];
    assert Shows(Run(decode, steps), Some(OLD_TRACE), Names(Holder(SECOND, "b")), Some(SECOND), cleaning,
      Process(Held("b", Complete), None, None, NotCleaning));
    RunSnoc(decode, steps, Append(SECOND, [66, LF]));
    steps := steps + [Append(SECOND, [66, LF])];
    assert Shows(Run(decode, steps), Some(OLD_TRACE + [66, LF]), Names(Holder(SECOND, "b")), Some(SECOND), cleaning,
      Process(Held("b", Complete), None, None, NotCleaning));
  }
}
