/**
 The trial index: a rebuildable table over the immutable trial records.  Whether it is stale is read
 off a row count and modification times; over all runs of the clock that is enough, and with two
 events in one tick it is not.
 */
module TrialIndex {
  import opened Wrappers
  import opened FiniteSets

  /** `trials/data/<month>/trial_<id>.yaml` */
  datatype RecordPath = RecordPath(month: string, id: string)

  datatype RecordFile = RecordFile(payload: string, mtime: int)

  type Files = map<RecordPath, RecordFile>

  datatype Row = Row(path: RecordPath, payload: string, mtime: int)

  /**
   `_index.sqlite`: missing, not loadable or of another schema, or with its rows, its summary (their count,
   when the rebuild began, the latest source time) and its own modification time.
   */
  datatype IndexFile =
    | NoIndex
    | Unusable
    | Usable(rows: map<string, Row>, count: nat, rebuiltAt: int, latest: Option<int>, mtime: int)

  datatype IndexError = DuplicateTrialId | RecordExists

  function RowOf(path: RecordPath, file: RecordFile): Row {
    Row(path, file.payload, file.mtime)
  }

  /** One row for every record and nothing else. */
  ghost predicate IsProjection(rows: map<string, Row>, files: Files) {
    && (forall p :: p in files ==> p.id in rows && rows[p.id] == RowOf(p, files[p]))
    && (forall id :: id in rows ==> rows[id].path in files && rows[id].path.id == id)
  }

  /** Trial ids are distinct across months. */
  ghost predicate DistinctIds(files: Files) {
    forall p, q :: p in files && q in files && p.id == q.id ==> p == q
  }

  /** `trial_index_is_stale` */
  predicate IsStale(files: Files, index: IndexFile) {
    match index
    case NoIndex => true
    case Unusable => true
    case Usable(_, count, _, _, mtime) => count != |files| || exists p :: p in files && files[p].mtime > mtime
  }

  lemma ProjectionIsUnique(a: map<string, Row>, b: map<string, Row>, files: Files)
    requires IsProjection(a, files) && IsProjection(b, files)
    ensures a == b
  {
    forall id ensures (id in a <==> id in b) && (id in a ==> a[id] == b[id]) {
      if id in a {
        assert a[id].path in files;
      }
      if id in b {
        assert b[id].path in files;
      }
    }
  }

  lemma ProjectedIdsAreDistinct(rows: map<string, Row>, files: Files)
    requires IsProjection(rows, files)
    ensures DistinctIds(files)
  {
    forall p, q | p in files && q in files && p.id == q.id ensures p == q {
      assert rows[p.id].path == p && rows[q.id].path == q;
    }
  }

  lemma ProjectionOfFewer(rows: map<string, Row>, files: Files, p: RecordPath)
    requires IsProjection(rows, files) && p in files
    ensures IsProjection(rows - {p.id}, files - {p})
  {
    var fewer, less := files - {p}, rows - {p.id};
    ProjectedIdsAreDistinct(rows, files);
    forall id | id in less ensures less[id].path in fewer && less[id].path.id == id {
      assert rows[id].path in files;
    }
  }

  /** A projection has as many rows as there are records. */
  lemma {:induction false} ProjectionSize(rows: map<string, Row>, files: Files)
    requires IsProjection(rows, files)
    ensures |rows| == |files|
    decreases |files|
  {
    if files == map[] {
      if id :| id in rows {
        assert rows[id].path in files;
      }
      assert rows == map[];
    } else {
      var p :| p in files;
      assert p.id in rows;
      ProjectionOfFewer(rows, files, p);
      hide IsProjection;
      var fewer, less := files - {p}, rows - {p.id};
      assert files.Keys == fewer.Keys + {p} && rows.Keys == less.Keys + {p.id};
      ProjectionSize(less, fewer);
    }
  }

  /** The greatest modification time, if there is any record. */
  ghost predicate IsLatest(files: Files, latest: Option<int>) {
    && (latest == None <==> files == map[])
    && (latest.Some? ==>
          && (exists p :: p in files && files[p].mtime == latest.value)
          && forall p :: p in files ==> files[p].mtime <= latest.value)
  }

  /** The records in the order in which they are discovered. */
  ghost predicate IsListing(paths: seq<RecordPath>, files: Files) {
    && (forall i, j :: 0 <= i < j < |paths| ==> paths[i] != paths[j])
    && (forall p :: p in paths <==> p in files)
  }

  /** The index and the records in place; `clock` is the file system's time. */
  class TrialStore {
    var files: Files
    var index: IndexFile
    var clock: int

    constructor ()
      ensures files == map[] && index == NoIndex && clock == 0
    {
      files, index, clock := map[], NoIndex, 0;
    }

    /** `write_trial_record`: a record is written once. */
    method WriteRecord(path: RecordPath, payload: string, elapsed: nat) returns (r: Result<(), IndexError>)
      modifies this
      ensures files == AfterWrite(old(files), path, payload, clock) && index == old(index) && clock == old(clock) + elapsed
      ensures r == if path in old(files) then Err(RecordExists) else Ok(())
    {
      clock := clock + elapsed;
      if path in files {
        return Err(RecordExists);
      }
      files := files[path := RecordFile(payload, clock)];
      return Ok(());
    }

    /** The rows as they are inserted; the table's primary key refuses a second row of one trial. */
    method InsertRows(paths: seq<RecordPath>) returns (r: Result<map<string, Row>, IndexError>)
      requires IsListing(paths, files)
      ensures r.Ok? <==> DistinctIds(files)
      ensures r.Ok? ==> IsProjection(r.value, files)
    {
      var rows: map<string, Row> := map[];
      for i := 0 to |paths|
        invariant forall k :: 0 <= k < i ==> paths[k].id in rows && rows[paths[k].id] == RowOf(paths[k], files[paths[k]])
        invariant forall id :: id in rows ==> exists k :: 0 <= k < i && paths[k].id == id && rows[id].path == paths[k]
      {
        var p := paths[i];
        if p.id in rows {
          assert rows[p.id].path in paths;
          return Err(DuplicateTrialId);
        }
        rows := rows[p.id := RowOf(p, files[p])];
      }
      return Ok(rows);
    }

    /** The latest modification time of the records. */
    method LatestMtime(paths: seq<RecordPath>) returns (latest: Option<int>)
      requires IsListing(paths, files)
      ensures IsLatest(files, latest)
    {
      latest := None;
      for i := 0 to |paths|
        invariant latest == None <==> i == 0
        invariant latest.Some? ==> exists k :: 0 <= k < i && files[paths[k]].mtime == latest.value
        invariant forall k :: 0 <= k < i ==> latest.Some? && files[paths[k]].mtime <= latest.value
      {
        var mtime := files[paths[i]].mtime;
        if latest == None || mtime > latest.value {
          latest := Some(mtime);
        }
      }
      if files != map[] {
        var p :| p in files;
        assert p in paths;
      }
    }

    /** `rebuild_trial_index`: when a row is refused the old index stays. */
    method Rebuild(paths: seq<RecordPath>, elapsed: nat) returns (r: Result<(), IndexError>)
      requires IsListing(paths, files)
      modifies this
      ensures files == old(files) && clock == old(clock) + elapsed
      ensures Rebuilt(files, old(index), old(clock), clock, index)
      ensures r == if DistinctIds(files) then Ok(()) else Err(DuplicateTrialId)
    {
      var rebuiltAt := clock;
      clock := clock + elapsed;
      var inserted := InsertRows(paths);
      if inserted.Err? {
        return Err(DuplicateTrialId);
      }
      var rows := inserted.value;
      ProjectionSize(rows, files);
      var latest := LatestMtime(paths);
      index := Usable(rows, |rows|, rebuiltAt, latest, clock);
      return Ok(());
    }

    /** `ensure_trial_index_current` */
    method EnsureCurrent(paths: seq<RecordPath>, elapsed: nat) returns (r: Result<(), IndexError>)
      requires IsListing(paths, files)
      modifies this
      ensures files == old(files) && clock == old(clock) + elapsed
      ensures
        if IsStale(old(files), old(index)) then
          && Rebuilt(files, old(index), old(clock), clock, index)
          && r == if DistinctIds(files) then Ok(()) else Err(DuplicateTrialId)
        else index == old(index) && r == Ok(())
    {
      if IsStale(files, index) {
        r := Rebuild(paths, elapsed);
      } else {
        clock := clock + elapsed;
        r := Ok(());
      }
    }
  }

  function AfterWrite(files: Files, path: RecordPath, payload: string, now: int): Files {
    if path in files then files else files[path := RecordFile(payload, now)]
  }

  /** What a rebuild leaves behind. */
  ghost predicate Rebuilt(files: Files, before: IndexFile, startedAt: int, now: int, after: IndexFile) {
    if DistinctIds(files) then
      && after.Usable? && IsProjection(after.rows, files) && after.count == |files|
      && after.rebuiltAt == startedAt && IsLatest(files, after.latest) && after.mtime == now
    else after == before
  }

  /** The workspace; `built` is what the records were when the index was last built. */
  datatype World = World(files: Files, index: IndexFile, clock: int, built: Files)

  /** The operations under the lock, and whatever may happen to a cache file. */
  datatype Step =
    | Write(path: RecordPath, payload: string, elapsed: nat)
    | Delete(path: RecordPath, elapsed: nat)
    | RebuildIndex(elapsed: nat)
    | Ensure(elapsed: nat)
    | LoseIndex(elapsed: nat)
    | SpoilIndex(elapsed: nat)

  const EMPTY := World(map[], NoIndex, 0, map[])

  ghost predicate IsNext(w: World, step: Step, after: World) {
    && after.clock == w.clock + step.elapsed
    && match step
       case Write(path, payload, _) =>
         after.files == AfterWrite(w.files, path, payload, after.clock) && after.index == w.index && after.built == w.built
       case Delete(path, _) => after.files == w.files - {path} && after.index == w.index && after.built == w.built
       case RebuildIndex(_) => RebuildsIndex(w, after)
       case Ensure(_) =>
         if IsStale(w.files, w.index) then RebuildsIndex(w, after)
         else after.files == w.files && after.index == w.index && after.built == w.built
       case LoseIndex(_) => after.files == w.files && after.index == NoIndex && after.built == w.built
       case SpoilIndex(_) => after.files == w.files && after.index == Unusable && after.built == w.built
  }

  ghost predicate RebuildsIndex(w: World, after: World) {
    && after.files == w.files
    && Rebuilt(w.files, w.index, w.clock, after.clock, after.index)
    && after.built == if DistinctIds(w.files) then w.files else w.built
  }

  ghost predicate IsRun(worlds: seq<World>, steps: seq<Step>) {
    && |worlds| == |steps| + 1 && worlds[0] == EMPTY
    && forall i :: 0 <= i < |steps| ==> IsNext(worlds[i], steps[i], worlds[i + 1])
  }

  /** No record is written in the tick in which the index was last written. */
  ghost predicate Ticks(worlds: seq<World>, steps: seq<Step>)
    requires |worlds| == |steps| + 1
  {
    forall i :: 0 <= i < |steps| && steps[i].Write? ==> steps[i].elapsed > 0
  }

  /** What the rebuild saw, and what came after it. */
  ghost predicate Tracked(w: World, strict: bool) {
    && (forall p :: p in w.files ==> w.files[p].mtime <= w.clock)
    && (w.index.Usable? ==>
          && IsProjection(w.index.rows, w.built) && w.index.count == |w.built| && w.index.mtime <= w.clock
          && (forall p :: p in w.built ==> w.built[p].mtime <= w.index.mtime)
          && forall p :: p in w.files && !(p in w.built && w.built[p] == w.files[p]) ==>
            if strict then w.files[p].mtime > w.index.mtime else w.files[p].mtime >= w.index.mtime)
  }

  lemma StepKeepsTrack(w: World, step: Step, after: World, strict: bool)
    requires Tracked(w, strict) && IsNext(w, step, after)
    requires strict && step.Write? ==> step.elapsed > 0
    ensures Tracked(after, strict)
  {
    hide IsProjection, DistinctIds, Tracked, IsStale;
    match step
    case Write(_, _, _) => WriteKeepsTrack(w, step, after, strict);
    case Delete(_, _) => DeleteKeepsTrack(w, step, after, strict);
    case _ =>
      if RebuildsIndex(w, after) {
        RebuildKeepsTrack(w, after, strict);
      } else {
        OtherwiseKeepsTrack(w, after, strict);
      }
  }

  lemma WriteKeepsTrack(w: World, step: Step, after: World, strict: bool)
    requires Tracked(w, strict) && step.Write? && IsNext(w, step, after) && (strict ==> step.elapsed > 0)
    ensures Tracked(after, strict)
  {
    hide IsProjection;
  }

  lemma DeleteKeepsTrack(w: World, step: Step, after: World, strict: bool)
    requires Tracked(w, strict) && step.Delete? && IsNext(w, step, after)
    ensures Tracked(after, strict)
  {
    hide IsProjection;
  }

  lemma RebuildKeepsTrack(w: World, after: World, strict: bool)
    requires Tracked(w, strict) && RebuildsIndex(w, after) && w.clock <= after.clock
    ensures Tracked(after, strict)
  {
    hide IsProjection, DistinctIds;
  }

  lemma OtherwiseKeepsTrack(w: World, after: World, strict: bool)
    requires Tracked(w, strict) && w.clock <= after.clock
    requires after.files == w.files && after.built == w.built && (after.index == w.index || !after.index.Usable?)
    ensures Tracked(after, strict)
  {
    hide IsProjection;
  }

  lemma {:induction false} EveryRunIsTracked(worlds: seq<World>, steps: seq<Step>, strict: bool)
    requires IsRun(worlds, steps) && (strict ==> Ticks(worlds, steps))
    ensures Tracked(worlds[|steps|], strict)
  {
    if steps != [] {
      var n := |steps| - 1;
      EveryRunIsTracked(worlds[..n + 1], steps[..n], strict);
      hide Tracked;
      StepKeepsTrack(worlds[n], steps[n], worlds[n + 1], strict);
    }
  }

  /** Unchanged records only, and as many as were indexed, are all the indexed ones. */
  lemma UnchangedAndCounted(files: Files, built: Files)
    requires |files| == |built|
    requires forall p :: p in files ==> p in built && built[p] == files[p]
    ensures files == built
  {
    SubsetOfSameSize(files.Keys, built.Keys);
  }

  /**
   Coherence over every run whose clock ticks before each write: an index that is not stale holds
   exactly the projection of the records that are there now.
   */
  lemma FreshIndexIsExact(worlds: seq<World>, steps: seq<Step>)
    requires IsRun(worlds, steps) && Ticks(worlds, steps)
    ensures
      var w := worlds[|steps|];
      !IsStale(w.files, w.index) ==> IsProjection(w.index.rows, w.files) && DistinctIds(w.files)
  {
    var w := worlds[|steps|];
    hide IsProjection, DistinctIds, IsRun, Ticks;
    EveryRunIsTracked(worlds, steps, true);
    if !IsStale(w.files, w.index) {
      UnchangedAndCounted(w.files, w.built);
      ProjectedIdsAreDistinct(w.index.rows, w.built);
    }
  }

  /**
   Without that assumption: an index that is not stale is exact if and only if every record with the
   index's own modification time is one the index has as it is.
   */
  lemma FreshIndexIsExactIff(worlds: seq<World>, steps: seq<Step>)
    requires IsRun(worlds, steps)
    requires !IsStale(worlds[|steps|].files, worlds[|steps|].index)
    ensures
      var w := worlds[|steps|];
      IsProjection(w.index.rows, w.files) <==>
        forall p :: p in w.files && w.files[p].mtime == w.index.mtime ==>
          p.id in w.index.rows && w.index.rows[p.id] == RowOf(p, w.files[p])
  {
    EveryRunIsTracked(worlds, steps, false);
    var w := worlds[|steps|];
    hide IsRun;
    if forall p :: p in w.files && w.files[p].mtime == w.index.mtime ==>
      p.id in w.index.rows && w.index.rows[p.id] == RowOf(p, w.files[p])
    {
      forall p | p in w.files ensures p in w.built && w.built[p] == w.files[p] {
        if w.files[p].mtime == w.index.mtime {
          assert w.index.rows[p.id].path in w.built;
        }
      }
      UnchangedAndCounted(w.files, w.built);
    }
  }

  /** Making the index current leaves it fresh and exact, except exactly when trial ids repeat. */
  lemma EnsureMakesExact(worlds: seq<World>, steps: seq<Step>, elapsed: nat, after: World)
    requires IsRun(worlds, steps) && Ticks(worlds, steps)
    requires IsNext(worlds[|steps|], Ensure(elapsed), after)
    ensures
      var w := worlds[|steps|];
      && after.files == w.files
      && (DistinctIds(w.files) <==> !IsStale(after.files, after.index))
      && (DistinctIds(w.files) ==> after.index.Usable? && IsProjection(after.index.rows, after.files))
  {
    hide IsProjection, DistinctIds, IsRun, Ticks;
    FreshIndexIsExact(worlds, steps);
    EveryRunIsTracked(worlds, steps, true);
  }

  /** In one tick: build over one record, delete it and write another.  The index is not stale, and names the first. */
  lemma SameTickIsMissed() returns (worlds: seq<World>, steps: seq<Step>)
    ensures IsRun(worlds, steps)
    ensures
      var w := worlds[|steps|];
      && !IsStale(w.files, w.index) && DistinctIds(w.files)
      && !IsProjection(w.index.rows, w.files)
  {
    var a, b := RecordPath("2026-01", "a"), RecordPath("2026-01", "b");
    var file := RecordFile("", 1);
    var rows := map["a" := RowOf(a, file)];
    var index := Usable(rows, 1, 1, Some(1), 1);
    steps := [Write(a, "", 1), RebuildIndex(0), Delete(a, 0), Write(b, "", 0)];
    var files := map[a := file];
    worlds := [
      EMPTY, World(files, NoIndex, 1, map[]), World(files, index, 1, files), World(map[], index, 1, files),
      World(map[b := file], index, 1, files)];
    assert IsProjection(rows, files);
    assert IsLatest(files, Some(1)) by {
      assert a in files;
    }
    assert files - {a} == map[];
    assert |files| == 1;
    assert b in worlds[4].files && "b" !in rows;
  }
}
