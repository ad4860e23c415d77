/**
 Chronological ordering of run records and the overlap scan over it.  The scan looks at neighbours
 only; it is proved to miss no overlap between any two runs.
 */
module RecordOrder {
  import opened Wrappers
  import opened Sorting
  import opened StatsTypes

  const OVERLAP_TOLERANCE_MICROS := 1000

  datatype Placed = Placed(position: nat, record: RunRecord)

  /** The sort key without its last component, the original position. */
  function CoarseKey(r: RunRecord): seq<int> {
    match (r.startedAt, r.runIndex)
    case (Some(t), Some(i)) => [0, t, i]
    case (Some(t), None) => [0, t, 0]
    case (None, Some(i)) => [1, i]
    case (None, None) => [2]
  }

  predicate OrderLeq(a: Placed, b: Placed) {
    if CoarseKey(a.record) == CoarseKey(b.record) then a.position <= b.position
    else LexLeq(CoarseKey(a.record), CoarseKey(b.record))
  }

  lemma OrderIsTotal()
    ensures TotalPreorder(OrderLeq)
  {
    forall a, b ensures OrderLeq(a, b) || OrderLeq(b, a) {
      LexTotal(CoarseKey(a.record), CoarseKey(b.record));
    }
    forall a, b, c | OrderLeq(a, b) && OrderLeq(b, c) ensures OrderLeq(a, c) {
      OrderTransitive(a, b, c);
    }
  }

  lemma OrderTransitive(a: Placed, b: Placed, c: Placed)
    requires OrderLeq(a, b) && OrderLeq(b, c)
    ensures OrderLeq(a, c)
  {
    var x, y, z := CoarseKey(a.record), CoarseKey(b.record), CoarseKey(c.record);
    if x != y && y != z {
      LexTransitive(x, y, z);
      if x == z {
        LexAntisymmetric(x, y);
      }
    }
  }

  function Enumerate(records: seq<RunRecord>): (p: seq<Placed>)
    ensures |p| == |records|
  {
    seq(|records|, i requires 0 <= i < |records| => Placed(i, records[i]))
  }

  function RecordsOf(placed: seq<Placed>): (r: seq<RunRecord>)
    ensures |r| == |placed|
  {
    seq(|placed|, i requires 0 <= i < |placed| => placed[i].record)
  }

  function InOrder(records: seq<RunRecord>): seq<RunRecord> {
    RecordsOf(Sort(Enumerate(records), OrderLeq))
  }

  function MeasuredOnly(records: seq<RunRecord>): seq<RunRecord> {
    if records == [] then []
    else
      var last := records[|records| - 1];
      MeasuredOnly(records[..|records| - 1]) + if last.measured then [last] else []
  }

  /** `_measured_records`: the measured runs in chronological order. */
  function OrderedMeasured(records: seq<RunRecord>): seq<RunRecord> {
    InOrder(MeasuredOnly(records))
  }

  /** Neighbours in the order do not decrease in their coarse key. */
  ghost predicate Chronological(s: seq<RunRecord>) {
    forall i, j :: 0 <= i < j < |s| ==> LexLeq(CoarseKey(s[i]), CoarseKey(s[j]))
  }

  /** Runs with a start come first, by start and then index, a missing index counting as 0; then those with an index. */
  ghost predicate NoLater(a: RunRecord, b: RunRecord) {
    if a.startedAt.Some? && b.startedAt.Some? then
      || a.startedAt.value < b.startedAt.value
      || (a.startedAt == b.startedAt && IndexOrZero(a) <= IndexOrZero(b))
    else if a.startedAt.Some? || b.startedAt.Some? then a.startedAt.Some?
    else if a.runIndex.Some? && b.runIndex.Some? then a.runIndex.value <= b.runIndex.value
    else a.runIndex.Some? || b.runIndex == None
  }

  function IndexOrZero(r: RunRecord): int {
    if r.runIndex.Some? then r.runIndex.value else 0
  }

  lemma KeyOrderIff(a: RunRecord, b: RunRecord)
    ensures LexLeq(CoarseKey(a), CoarseKey(b)) <==> NoLater(a, b)
  {
    var x, y := CoarseKey(a), CoarseKey(b);
    assert x[1..] == [] || x[1..][1..] == x[2..];
    assert y[1..] == [] || y[1..][1..] == y[2..];
    if a.startedAt.Some? && b.startedAt.Some? {
      assert x[1..][0] == a.startedAt.value && y[1..][0] == b.startedAt.value;
      assert x[2..] == [IndexOrZero(a)] && y[2..] == [IndexOrZero(b)];
      assert x[2..][1..] == [] && y[2..][1..] == [];
      assert LexLeq(x[2..], y[2..]) <==> IndexOrZero(a) <= IndexOrZero(b);
    } else if x[0] == y[0] == 1 {
      assert x[1..] == [a.runIndex.value] && y[1..] == [b.runIndex.value];
      assert x[1..][1..] == [] && y[1..][1..] == [];
      assert LexLeq(x[1..], y[1..]) <==> a.runIndex.value <= b.runIndex.value;
    }
  }

  /** Every two runs of the order are in order, in these terms. */
  lemma InOrderMeans(records: seq<RunRecord>)
    ensures var s := InOrder(records); forall i, j :: 0 <= i < j < |s| ==> NoLater(s[i], s[j])
  {
    InOrderSorts(records);
    var s := InOrder(records);
    hide InOrder, CoarseKey, NoLater;
    forall i, j | 0 <= i < j < |s| ensures NoLater(s[i], s[j]) {
      assert LexLeq(CoarseKey(s[i]), CoarseKey(s[j]));
      KeyOrderIff(s[i], s[j]);
    }
  }

  function Without<T>(s: seq<T>, k: nat): (r: seq<T>)
    requires k < |s|
    ensures |r| == |s| - 1
    ensures multiset(s) == multiset(r) + multiset{s[k]}
  {
    assert s == s[..k] + [s[k]] + s[k + 1..];
    s[..k] + s[k + 1..]
  }

  lemma WithoutRecords(s: seq<Placed>, k: nat)
    requires k < |s|
    ensures multiset(RecordsOf(s)) == multiset(RecordsOf(Without(s, k))) + multiset{s[k].record}
  {
    assert RecordsOf(Without(s, k)) == Without(RecordsOf(s), k);
  }

  lemma SharedElement<T>(a: seq<T>, b: seq<T>) returns (k: nat)
    requires multiset(a) == multiset(b) && a != []
    ensures k < |b| && b[k] == a[0]
    ensures multiset(Without(a, 0)) == multiset(Without(b, k))
  {
    assert a[0] in multiset(b);
    k :| k < |b| && b[k] == a[0];
    assert multiset(Without(a, 0)) == multiset(a) - multiset{a[0]};
    assert multiset(Without(b, k)) == multiset(b) - multiset{b[k]};
  }

  lemma {:induction false} RecordsOfPermutation(a: seq<Placed>, b: seq<Placed>)
    requires multiset(a) == multiset(b)
    ensures multiset(RecordsOf(a)) == multiset(RecordsOf(b))
    decreases |a|
  {
    hide Without, RecordsOf;
    assert |a| == |multiset(a)| == |multiset(b)| == |b|;
    if a != [] {
      var k := SharedElement(a, b);
      RecordsOfPermutation(Without(a, 0), Without(b, k));
      WithoutRecords(a, 0);
      WithoutRecords(b, k);
    }
  }

  /** Ordering rearranges the runs and puts them in chronological order. */
  lemma InOrderSorts(records: seq<RunRecord>)
    ensures multiset(InOrder(records)) == multiset(records)
    ensures Chronological(InOrder(records))
  {
    var placed := Enumerate(records);
    var s := Sort(placed, OrderLeq);
    OrderIsTotal();
    SortPermutes(placed, OrderLeq);
    SortSorts(placed, OrderLeq);
    RecordsOfPermutation(s, placed);
    assert RecordsOf(placed) == records;
    forall i, j | 0 <= i < j < |s| ensures LexLeq(CoarseKey(s[i].record), CoarseKey(s[j].record)) {
      assert OrderLeq(s[i], s[j]);
      LexTotal(CoarseKey(s[i].record), CoarseKey(s[i].record));
    }
  }

  /** Ordering runs that are in order leaves them alone. */
  lemma InOrderIsFixed(s: seq<RunRecord>)
    requires Chronological(s)
    ensures InOrder(s) == s
  {
    var placed := Enumerate(s);
    forall i, j | 0 <= i < j < |s| ensures OrderLeq(placed[i], placed[j]) {
    }
    SortedIsFixed(placed, OrderLeq);
    assert RecordsOf(placed) == s;
  }

  lemma {:induction false} MeasuredMultiplicity(records: seq<RunRecord>, r: RunRecord)
    ensures multiset(MeasuredOnly(records))[r] == if r.measured then multiset(records)[r] else 0
  {
    if records != [] {
      var front, last := records[..|records| - 1], records[|records| - 1];
      MeasuredMultiplicity(front, r);
      assert records == front + [last];
    }
  }

  lemma {:induction false} AllMeasured(records: seq<RunRecord>)
    requires forall i :: 0 <= i < |records| ==> records[i].measured
    ensures MeasuredOnly(records) == records
  {
    if records != [] {
      AllMeasured(records[..|records| - 1]);
    }
  }

  lemma MeasuredMembers(records: seq<RunRecord>)
    ensures forall r :: r in OrderedMeasured(records) <==> r in records && r.measured
  {
    InOrderSorts(MeasuredOnly(records));
    forall r ensures r in OrderedMeasured(records) <==> r in records && r.measured {
      MeasuredMultiplicity(records, r);
      assert r in OrderedMeasured(records) <==> r in multiset(OrderedMeasured(records));
      assert r in records <==> r in multiset(records);
    }
  }

  /** The code orders its records repeatedly; after the first time nothing changes. */
  lemma OrderingIsIdempotent(records: seq<RunRecord>)
    ensures OrderedMeasured(OrderedMeasured(records)) == OrderedMeasured(records)
  {
    var s := OrderedMeasured(records);
    InOrderSorts(MeasuredOnly(records));
    MeasuredMembers(records);
    forall i | 0 <= i < |s| ensures s[i].measured {
      assert s[i] in s;
    }
    AllMeasured(s);
    InOrderIsFixed(s);
  }

  predicate StartsNoLater(a: RunRecord, b: RunRecord) {
    a.startedAt.Some? && b.startedAt.Some? ==> a.startedAt.value <= b.startedAt.value
  }

  /** The measured runs all carry start times, no two the same. */
  ghost predicate DistinctStarts(records: seq<RunRecord>) {
    && (forall r :: r in records && r.measured ==> r.startedAt.Some?)
    && (forall a, b :: a in records && b in records && a.measured && b.measured && a.startedAt == b.startedAt ==> a == b)
  }

  lemma StartedInOrder(s: seq<RunRecord>, i: nat, j: nat)
    requires Chronological(s) && i < j < |s|
    ensures StartsNoLater(s[i], s[j])
  {
    var x, y := CoarseKey(s[i]), CoarseKey(s[j]);
    assert LexLeq(x, y);
    if s[i].startedAt.Some? && s[j].startedAt.Some? {
      assert x[0] == y[0] == 0 && x[1..][0] == s[i].startedAt.value && y[1..][0] == s[j].startedAt.value;
      assert LexLeq(x[1..], y[1..]);
    }
  }

  /** With distinct start times the order does not depend on how the runs were listed. */
  lemma OrderForgetsListing(a: seq<RunRecord>, b: seq<RunRecord>)
    requires multiset(a) == multiset(b) && DistinctStarts(a)
    ensures OrderedMeasured(a) == OrderedMeasured(b)
  {
    var s, t := OrderedMeasured(a), OrderedMeasured(b);
    InOrderSorts(MeasuredOnly(a));
    InOrderSorts(MeasuredOnly(b));
    forall r ensures multiset(MeasuredOnly(a))[r] == multiset(MeasuredOnly(b))[r] {
      MeasuredMultiplicity(a, r);
      MeasuredMultiplicity(b, r);
    }
    assert multiset(s) == multiset(t);
    forall i, j | 0 <= i < j < |s| ensures StartsNoLater(s[i], s[j]) { StartedInOrder(s, i, j); }
    forall i, j | 0 <= i < j < |t| ensures StartsNoLater(t[i], t[j]) { StartedInOrder(t, i, j); }
    MeasuredMembers(a);
    forall i, j | 0 <= i < |s| && 0 <= j < |s| && StartsNoLater(s[i], s[j]) && StartsNoLater(s[j], s[i])
      ensures s[i] == s[j]
    {
      assert s[i] in s && s[j] in s;
      assert s[i] in a && s[j] in a;
    }
    SortedIsUnique(s, t, StartsNoLater);
  }

  /** `a` ends more than the tolerance after `b` has started. */
  predicate RunsInto(a: RunRecord, b: RunRecord) {
    a.endedAt.Some? && b.startedAt.Some? && a.endedAt.value - b.startedAt.value > OVERLAP_TOLERANCE_MICROS
  }

  predicate RunsIntoNext(s: seq<RunRecord>, i: nat)
    requires i < |s| - 1
  {
    RunsInto(s[i], s[i + 1])
  }

  /** `_records_have_time_overlap`: only neighbours are compared. */
  predicate HaveTimeOverlap(records: seq<RunRecord>) {
    var s := InOrder(records);
    exists i :: 0 <= i < |s| - 1 && RunsIntoNext(s, i)
  }

  predicate Timed(r: RunRecord) {
    r.startedAt.Some? && r.endedAt.Some?
  }

  ghost predicate AllTimed(records: seq<RunRecord>) {
    forall i :: 0 <= i < |records| ==> Timed(records[i])
  }

  /** Microseconds during which both runs are active (negative when they are apart). */
  function SharedTime(a: RunRecord, b: RunRecord): int
    requires Timed(a) && Timed(b)
  {
    var start := if a.startedAt.value < b.startedAt.value then b.startedAt.value else a.startedAt.value;
    var end := if a.endedAt.value < b.endedAt.value then a.endedAt.value else b.endedAt.value;
    end - start
  }

  lemma TimedInOrder(records: seq<RunRecord>)
    requires AllTimed(records)
    ensures AllTimed(InOrder(records)) && Chronological(InOrder(records))
    ensures |InOrder(records)| == |records|
  {
    InOrderSorts(records);
    var s := InOrder(records);
    forall i | 0 <= i < |s| ensures Timed(s[i]) {
      assert s[i] in multiset(s);
      assert s[i] in multiset(records);
    }
    assert |multiset(s)| == |multiset(records)|;
  }

  /** Looking at neighbours is as good as looking at every ordered pair, whatever times are missing. */
  lemma NeighboursSuffice(records: seq<RunRecord>)
    ensures var s := InOrder(records);
      HaveTimeOverlap(records) <==> exists i, j :: 0 <= i < j < |s| && RunsInto(s[i], s[j])
  {
    var s := InOrder(records);
    InOrderSorts(records);
    hide InOrder, Chronological, RunsInto;
    if HaveTimeOverlap(records) {
      var i :| 0 <= i < |s| - 1 && RunsIntoNext(s, i);
    }
    if i, j :| 0 <= i < j < |s| && RunsInto(s[i], s[j]) {
      ThenIntoNext(s, i, j);
    }
  }

  lemma ThenIntoNext(s: seq<RunRecord>, i: nat, j: nat)
    requires Chronological(s) && i < j < |s| && RunsInto(s[i], s[j])
    ensures RunsIntoNext(s, i)
  {
    hide Chronological;
    if i + 1 < j {
      StartedInOrder(s, i + 1, j);
      StartedComeFirst(s, i + 1, j);
    }
  }

  /** Runs with a start time come before all others. */
  lemma StartedComeFirst(s: seq<RunRecord>, i: nat, j: nat)
    requires Chronological(s) && i < j < |s|
    ensures s[j].startedAt.Some? ==> s[i].startedAt.Some?
  {
    assert LexLeq(CoarseKey(s[i]), CoarseKey(s[j]));
  }

  /** When the scan finds nothing, no two runs with both times share more than the tolerance. */
  lemma ScanMissesNoOverlap(records: seq<RunRecord>, i: nat, j: nat)
    requires !HaveTimeOverlap(records)
    requires i < |InOrder(records)| && j < |InOrder(records)| && i != j
    requires Timed(InOrder(records)[i]) && Timed(InOrder(records)[j])
    ensures SharedTime(InOrder(records)[i], InOrder(records)[j]) <= OVERLAP_TOLERANCE_MICROS
  {
    InOrderSorts(records);
    NeighboursSuffice(records);
    var s := InOrder(records);
    if i < j {
      StartedInOrder(s, i, j);
      assert !RunsInto(s[i], s[j]);
    } else {
      StartedInOrder(s, j, i);
      assert !RunsInto(s[j], s[i]);
    }
  }

  /** For runs longer than the tolerance the scan is exact. */
  lemma ScanIsExactForLongRuns(records: seq<RunRecord>)
    requires AllTimed(records)
    requires forall r :: r in InOrder(records) && Timed(r) ==>
      r.endedAt.value - r.startedAt.value > OVERLAP_TOLERANCE_MICROS
    ensures AllTimed(InOrder(records))
    ensures HaveTimeOverlap(records) <==>
      exists i, j :: 0 <= i < j < |InOrder(records)|
        && SharedTime(InOrder(records)[i], InOrder(records)[j]) > OVERLAP_TOLERANCE_MICROS
  {
    TimedInOrder(records);
    NeighboursSuffice(records);
    var s := InOrder(records);
    hide InOrder, Chronological, CoarseKey, HaveTimeOverlap;
    if i, j :| 0 <= i < j < |s| && RunsInto(s[i], s[j]) {
      StartedInOrder(s, i, j);
      assert s[j] in s;
      assert SharedTime(s[i], s[j]) > OVERLAP_TOLERANCE_MICROS;
    }
    if i, j :| 0 <= i < j < |s| && SharedTime(s[i], s[j]) > OVERLAP_TOLERANCE_MICROS {
      ScanFinds(s, i, j);
    }
  }

  lemma ScanFinds(s: seq<RunRecord>, i: nat, j: nat)
    requires AllTimed(s) && Chronological(s) && i < j < |s|
    requires SharedTime(s[i], s[j]) > OVERLAP_TOLERANCE_MICROS
    ensures RunsInto(s[i], s[j])
  {
    StartedInOrder(s, i, j);
  }
}
