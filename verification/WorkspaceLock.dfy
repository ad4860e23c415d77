/**
 The workspace lock: an exclusive `flock` on a file that also names its holder.  The kernel's lock and
 the name are two different things; the contracts say when they agree.
 */
module WorkspaceLock {
  import opened Wrappers

  const CREATE_TIME_TOLERANCE := 0.5

  /** A process: its id alone may be used again, its id and creation time are not. */
  datatype ProcessId = ProcessId(pid: nat, createTime: real)

  datatype Holder = Holder(process: ProcessId, session: string)

  /** The text of the lock file: empty, unreadable as a holder, or naming one. */
  datatype LockText = Missing | Blank | Garbled | Names(holder: Holder)

  /** `read_holder` */
  function ReadHolder(text: LockText): Option<Holder> {
    if text.Names? then Some(text.holder) else None
  }

  /** What looking up a pid shows. */
  datatype Lookup = NoSuchProcess | LookupFailed | Running(createTime: real)

  predicate TooFarApart(a: real, b: real) {
    a - b > CREATE_TIME_TOLERANCE || b - a > CREATE_TIME_TOLERANCE
  }

  /** `_is_stale` */
  predicate IsStale(holder: Holder, found: Lookup) {
    match found
    case NoSuchProcess => true
    case LookupFailed => false
    case Running(createTime) => TooFarApart(createTime, holder.process.createTime)
  }

  /** No such process, this process, or another one. */
  datatype Liveness = Gone | Self | Other

  /** `_classify_lock_holder` of trace cleanup. */
  function Classify(holder: Holder, found: Lookup, me: nat): Liveness {
    match found
    case NoSuchProcess => Gone
    case LookupFailed => Other
    case Running(createTime) =>
      if TooFarApart(createTime, holder.process.createTime) then Gone
      else if holder.process.pid == me then Self
      else Other
  }

  /** The kernel's lock and the file. */
  class LockFile {
    var text: LockText
    var owner: Option<nat>
    var nextFd: nat

    ghost predicate Valid()
      reads this
    {
      (owner.Some? ==> owner.value < nextFd) && (owner.Some? ==> text != Missing)
    }

    constructor ()
      ensures Valid() && text == Missing && owner == None && nextFd == 0
    {
      text, owner, nextFd := Missing, None, 0;
    }
  }

  /** What other processes have made of the lock by the next attempt, and whether the deadline has passed. */
  datatype Glimpse = Glimpse(owner: Option<nat>, text: LockText, late: bool)

  /** Index of the attempt that decides: the lock is free, or there is no more time. */
  function Decisive(glimpses: seq<Glimpse>, patient: bool): (k: nat)
    requires glimpses != [] && glimpses[|glimpses| - 1].late
    ensures k < |glimpses|
    ensures glimpses[k].owner == None || !patient || glimpses[k].late
    ensures forall j :: 0 <= j < k ==> glimpses[j].owner.Some? && patient && !glimpses[j].late
  {
    if glimpses[0].owner == None || !patient || glimpses[0].late then 0
    else 1 + Decisive(glimpses[1..], patient)
  }

  /**
   What a short write leaves: nothing, too few fields to be read as a holder, or all of them with the
   end of the last one, the agent version, cut off.
   */
  datatype Cut = NothingWritten | NameIncomplete | NameComplete

  /** How `_write_holder` can end.  The number of bytes written is not looked at. */
  datatype Writing = TruncateRaises | WriteRaises | FsyncRaises | ShortWrite(cut: Cut) | Complete

  function AfterWriting(text: LockText, holder: Holder, writing: Writing): (after: LockText)
    ensures text != Missing ==> after != Missing
  {
    match writing
    case TruncateRaises => text
    case WriteRaises => Blank
    case ShortWrite(NothingWritten) => Blank
    case ShortWrite(NameIncomplete) => Garbled
    case ShortWrite(NameComplete) => Names(holder)
    case FsyncRaises => Names(holder)
    case Complete => Names(holder)
  }

  predicate WritingReturns(writing: Writing) {
    writing.ShortWrite? || writing.Complete?
  }

  /** The file names the holder afterwards. */
  predicate WritesName(writing: Writing) {
    writing == Complete || writing == FsyncRaises || writing == ShortWrite(NameComplete)
  }

  /** Once the file was truncated the former holder's name is gone, whatever happens. */
  lemma WritingForgets(text: LockText, holder: Holder, writing: Writing)
    ensures writing == TruncateRaises ==> AfterWriting(text, holder, writing) == text
    ensures writing != TruncateRaises ==>
      ReadHolder(AfterWriting(text, holder, writing)) == if WritesName(writing) then Some(holder) else None
  {}

  datatype LockError = AlreadyHeld | NegativeTimeout | Busy(holder: Option<Holder>) | HolderNotWritten

  /** What can go wrong in a probe: no lock backend, or a system call that raises. */
  datatype ProbeFault = NoFault | NoBackend | OpenFails | FlockFails | UnlockFails

  datatype ProbeResult = ProbeResult(isLocked: bool, error: Option<ProbeFault>)

  /** A probe says locked only of a lock that someone owns, and reports every fault it meets. */
  function ProbeOutcome(text: LockText, owner: Option<nat>, fault: ProbeFault): (r: ProbeResult)
    ensures r.isLocked ==> owner.Some? && r.error == None
    ensures r.error == None && !r.isLocked ==> owner == None || text == Missing
  {
    if fault == NoBackend then ProbeResult(false, Some(NoBackend))
    else if text == Missing then ProbeResult(false, None)
    else if fault == OpenFails || fault == FlockFails then ProbeResult(false, Some(fault))
    else if owner.Some? then ProbeResult(true, None)
    else if fault == UnlockFails then ProbeResult(false, Some(UnlockFails))
    else ProbeResult(false, None)
  }

  /** `WorkspaceLock` */
  class WorkspaceLock {
    const file: LockFile
    const me: ProcessId
    var fd: Option<nat>
    var holder: Option<Holder>
    var replacedStaleHolder: Option<Holder>

    /** A descriptor is kept exactly while it owns the kernel's lock. */
    ghost predicate Valid()
      reads this, file
    {
      && file.Valid()
      && (fd.Some? ==> file.owner == fd && holder.Some? && holder.value.process == me)
      && (fd == None ==> holder == None)
    }

    constructor (file: LockFile, me: ProcessId)
      requires file.Valid()
      ensures Valid() && this.file == file && this.me == me
      ensures fd == None && replacedStaleHolder == None
    {
      this.file, this.me := file, me;
      fd, holder, replacedStaleHolder := None, None, None;
    }

    /** The attempts of `acquire`, up to the one that decides. */
    method AwaitLock(mine: nat, timeout: real, glimpses: seq<Glimpse>) returns (acquired: bool)
      requires timeout >= 0.0
      requires glimpses != [] && glimpses[|glimpses| - 1].late
      modifies file`owner, file`text
      ensures
        var found := glimpses[Decisive(glimpses, timeout > 0.0)];
        && (acquired <==> found.owner == None)
        && file.owner == (if acquired then Some(mine) else found.owner) && file.text == found.text
    {
      var k := 0;
      while true
        invariant k <= Decisive(glimpses, timeout > 0.0)
        decreases |glimpses| - k
      {
        file.owner, file.text := glimpses[k].owner, glimpses[k].text;
        if file.owner == None {
          file.owner := Some(mine);
          return true;
        }
        if timeout == 0.0 || glimpses[k].late {
          return false;
        }
        k := k + 1;
      }
    }

    /**
     `acquire`.  `glimpses` are the states in which the attempts find the lock, `lookup` is the
     process table; the clock reaches the deadline at some point.
     */
    method Acquire(session: string, timeout: real, glimpses: seq<Glimpse>, lookup: nat -> Lookup, writing: Writing)
      returns (r: Result<(), LockError>)
      requires Valid()
      requires glimpses != [] && glimpses[|glimpses| - 1].late
      requires forall k :: 0 <= k < |glimpses| ==>
        && (glimpses[k].owner.Some? ==> glimpses[k].owner.value < file.nextFd)
        && glimpses[k].text != Missing
      modifies this, file
      ensures Valid()
      ensures
        if old(fd).Some? then
          r == Err(AlreadyHeld) && fd == old(fd) && holder == old(holder) && file.text == old(file.text)
        else if timeout < 0.0 then
          r == Err(NegativeTimeout) && fd == None && file.owner == old(file.owner) && file.text == old(file.text)
        else
          var found := glimpses[Decisive(glimpses, timeout > 0.0)];
          var mine := Holder(me, session);
          if found.owner.Some? then
            // Busy: the lock file is left alone, and the error carries what it says.
            r == Err(Busy(ReadHolder(found.text))) && fd == None && file.owner == found.owner && file.text == found.text
          else
            && file.text == AfterWriting(found.text, mine, writing)
            && replacedStaleHolder == StaleAfter(old(replacedStaleHolder), found.text, lookup)
            && if WritingReturns(writing) then
              r == Ok(()) && fd == Some(old(file.nextFd)) && file.owner == fd && holder == Some(mine)
            else
              r == Err(HolderNotWritten) && fd == None && file.owner == None
      ensures old(fd).Some? || timeout < 0.0 || glimpses[Decisive(glimpses, timeout > 0.0)].owner.Some? ==>
        replacedStaleHolder == old(replacedStaleHolder)
      // A held lock names its holder, unless the write was cut short before the last field.
      ensures r.Ok? ==> (file.text == Names(holder.value) <==> WritesName(writing))
    {
      if fd.Some? {
        return Err(AlreadyHeld);
      }
      if timeout < 0.0 {
        return Err(NegativeTimeout);
      }
      file.nextFd := file.nextFd + 1;
      var acquired := AwaitLock(file.nextFd - 1, timeout, glimpses);
      if !acquired {
        return Err(Busy(ReadHolder(file.text)));
      }
      fd := file.owner;
      var previous := ReadHolder(file.text);
      if previous.Some? && IsStale(previous.value, lookup(previous.value.process.pid)) {
        replacedStaleHolder := previous;
      }
      var named := Holder(me, session);
      file.text := AfterWriting(file.text, named, writing);
      if !WritingReturns(writing) {
        // Closing the descriptor gives up the kernel's lock.
        file.owner, fd, holder := None, None, None;
        return Err(HolderNotWritten);
      }
      holder := Some(named);
      return Ok(());
    }

    /** `release`: the name stays in the file. */
    method Release()
      requires Valid()
      modifies this, file
      ensures Valid() && fd == None && holder == None
      ensures file.text == old(file.text) && file.nextFd == old(file.nextFd)
      ensures file.owner == if old(fd) == None then old(file.owner) else None
      ensures replacedStaleHolder == old(replacedStaleHolder)
    {
      if fd == None {
        return;
      }
      fd, holder := None, None;
      file.owner := None;
    }

    /**
     `probe_lock`: takes the kernel's lock for a moment if it can, and leaves everything as it was, errors
     included; closing the descriptor gives the lock up even when unlocking raises.
     */
    method Probe(fault: ProbeFault) returns (r: ProbeResult)
      requires Valid()
      modifies file
      ensures Valid()
      ensures r == ProbeOutcome(old(file.text), old(file.owner), fault)
      // A probe that gets as far as the kernel's lock says locked exactly of an owned one.
      ensures r.isLocked <==> old(file.owner).Some? && (fault == NoFault || fault == UnlockFails)
      ensures r.error == None || r.error == Some(fault)
      ensures r.error.Some? <==>
        || fault == NoBackend
        || (file.text != Missing && (fault == OpenFails || fault == FlockFails || (fault == UnlockFails && !r.isLocked)))
      ensures file.text == old(file.text) && file.owner == old(file.owner)
    {
      if fault == NoBackend {
        return ProbeResult(false, Some(NoBackend));
      }
      if file.text == Missing {
        return ProbeResult(false, None);
      }
      if fault == OpenFails {
        return ProbeResult(false, Some(OpenFails));
      }
      var probing := file.nextFd;
      file.nextFd := probing + 1;
      if fault == FlockFails {
        return ProbeResult(false, Some(FlockFails));
      }
      if file.owner.Some? {
        return ProbeResult(true, None);
      }
      file.owner := Some(probing);
      if fault == UnlockFails {
        file.owner := None;
        return ProbeResult(false, Some(UnlockFails));
      }
      file.owner := None;
      return ProbeResult(false, None);
    }
  }

  /** The recorded stale holder: never cleared, replaced when the previous holder is found to be gone. */
  function StaleAfter(before: Option<Holder>, text: LockText, lookup: nat -> Lookup): Option<Holder> {
    if text.Names? && IsStale(text.holder, lookup(text.holder.process.pid)) then Some(text.holder) else before
  }

  /** The lock and the cleanup agree on who is dead. */
  lemma StaleIffGone(holder: Holder, found: Lookup, me: nat)
    ensures IsStale(holder, found) <==> Classify(holder, found, me) == Gone
  {}

  /**
   A pid counts as the holder's if the process running under it was created within half a second of it:
   then it is this process or another by the pid, otherwise the holder is gone.
   */
  lemma LivenessIff(holder: Holder, found: Lookup, me: nat)
    ensures
      var near := found.Running? && -0.5 <= found.createTime - holder.process.createTime <= 0.5;
      && (Classify(holder, found, me) == Self <==> near && holder.process.pid == me)
      && (Classify(holder, found, me) == Other <==> found == LookupFailed || (near && holder.process.pid != me))
      && (Classify(holder, found, me) == Gone <==> found == NoSuchProcess || (found.Running? && !near))
  {}

  /** A holder is recorded as replaced exactly when the file named it and nothing of it was left running. */
  lemma ReplacedIffGone(before: Option<Holder>, text: LockText, lookup: nat -> Lookup, me: nat)
    ensures
      var after := StaleAfter(before, text, lookup);
      if text.Names? && Classify(text.holder, lookup(text.holder.process.pid), me) == Gone then after == Some(text.holder)
      else after == before
  {
    if text.Names? {
      StaleIffGone(text.holder, lookup(text.holder.process.pid), me);
    }
  }

  /** A caller gets the lock exactly when it is free at some attempt made before the time is up. */
  lemma {:induction false} AcquiresIffFreeInTime(glimpses: seq<Glimpse>, patient: bool)
    requires glimpses != [] && glimpses[|glimpses| - 1].late
    ensures glimpses[Decisive(glimpses, patient)].owner == None <==>
      exists k :: 0 <= k < |glimpses| && glimpses[k].owner == None
        && forall j :: 0 <= j < k ==> patient && !glimpses[j].late
  {
    var d := Decisive(glimpses, patient);
    if k :| 0 <= k < |glimpses| && glimpses[k].owner == None && forall j :: 0 <= j < k ==> patient && !glimpses[j].late {
      assert d <= k;
    }
  }
}
