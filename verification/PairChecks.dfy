/** When a pair of runs is good, in terms of the times and gaps that its runs report. */
module PairChecks {
  import opened Wrappers
  import opened StatsTypes
  import opened RecordOrder
  import opened Pairing

  predicate EndsBeforeStarting(r: RunRecord) {
    r.startedAt.Some? && r.endedAt.Some? && r.endedAt.value < r.startedAt.value
  }

  /** What is known about how long a run took: what it says itself and what its times say. */
  function DurationsOf(r: RunRecord): set<real> {
    (if r.durationSec.Some? then {r.durationSec.value} else {})
    + if r.startedAt.Some? && r.endedAt.Some? then {(r.endedAt.value - r.startedAt.value) as real / 1000000.0} else {}
  }

  /** What is known about the gap of a pair: what either run says and what their starts say. */
  function GapsOf(p: Pair): set<real> {
    (if p.baseline.pairTimeGapSec.Some? then {p.baseline.pairTimeGapSec.value} else {})
    + (if p.candidate.pairTimeGapSec.Some? then {p.candidate.pairTimeGapSec.value} else {})
    + StartGap(p)
  }

  function StartGap(p: Pair): set<real> {
    if p.baseline.startedAt == None || p.candidate.startedAt == None then {}
    else if p.baseline.startedAt.value <= p.candidate.startedAt.value then
      {(p.candidate.startedAt.value - p.baseline.startedAt.value) as real / 1000000.0}
    else {(p.baseline.startedAt.value - p.candidate.startedAt.value) as real / 1000000.0}
  }

  ghost predicate IsLeast(d: real, s: set<real>) {
    d in s && forall e :: e in s ==> d <= e
  }

  ghost predicate IsGreatest(d: real, s: set<real>) {
    d in s && forall e :: e in s ==> e <= d
  }

  lemma DurationIsLeast(p: Pair)
    ensures
      var duration := PairDuration(p);
      var known := DurationsOf(p.baseline) + DurationsOf(p.candidate);
      if EndsBeforeStarting(p.baseline) || EndsBeforeStarting(p.candidate) then duration == Err(EndsBeforeStart)
      else
        && duration.Ok? && (duration.value == None <==> known == {})
        && (duration.value.Some? ==> IsLeast(duration.value.value, known))
  {
    RunDurationIsLeast(p.baseline);
    RunDurationIsLeast(p.candidate);
    hide EffectiveDuration, DurationsOf, EndsBeforeStarting;
  }

  lemma RunDurationIsLeast(r: RunRecord)
    ensures
      var duration := EffectiveDuration(r);
      if EndsBeforeStarting(r) then duration == Err(EndsBeforeStart)
      else
        && duration.Ok? && (duration.value == None <==> DurationsOf(r) == {})
        && (duration.value.Some? ==> IsLeast(duration.value.value, DurationsOf(r)))
  {
    assert r.durationSec.Some? ==> r.durationSec.value in DurationsOf(r);
  }

  lemma GapIsGreatest(p: Pair)
    ensures
      var gap := PairTimeGap(p).effective;
      && (gap == None <==> GapsOf(p) == {})
      && (gap.Some? ==> IsGreatest(gap.value, GapsOf(p)))
  {
    assert DerivedGap(p).Some? ==> DerivedGap(p).value in StartGap(p);
    assert p.baseline.pairTimeGapSec.Some? ==> p.baseline.pairTimeGapSec.value in GapsOf(p);
    assert p.candidate.pairTimeGapSec.Some? ==> p.candidate.pairTimeGapSec.value in GapsOf(p);
  }

  predicate Reports(p: Pair, gap: real) {
    p.baseline.pairTimeGapSec == Some(gap) || p.candidate.pairTimeGapSec == Some(gap)
  }

  /** The starts lie further apart than every run says: by more than five seconds, or more than tenfold and than five. */
  ghost predicate Contradicted(p: Pair) {
    && (exists g :: Reports(p, g))
    && exists d ::
      && d in StartGap(p) && (forall g :: Reports(p, g) ==> d > g)
      && ((forall g :: Reports(p, g) ==> d > g + 5.0) || (d > 5.0 && forall g :: Reports(p, g) ==> d > g * 10.0))
  }

  lemma ContradictedIff(p: Pair)
    ensures PairTimeGap(p).sourceConflict <==> Contradicted(p)
  {
    if p.baseline.pairTimeGapSec.Some? {
      assert Reports(p, p.baseline.pairTimeGapSec.value);
    }
    if p.candidate.pairTimeGapSec.Some? {
      assert Reports(p, p.candidate.pairTimeGapSec.value);
    }
    if DerivedGap(p).Some? {
      assert StartGap(p) == {DerivedGap(p).value};
    }
    if ReportedGap(p).Some? {
      assert Reports(p, ReportedGap(p).value);
      assert forall g :: Reports(p, g) ==> g <= ReportedGap(p).value;
    }
  }

  ghost predicate SameOrder(p: Pair) {
    p.baseline.pairOrder.Some? && p.baseline.pairOrder == p.candidate.pairOrder
  }

  /** At most five minutes, and at most five seconds or five times every known duration. */
  ghost predicate Tolerable(p: Pair, gap: real) {
    var durations := DurationsOf(p.baseline) + DurationsOf(p.candidate);
    gap <= 300.0 && (gap <= 5.0 || (durations != {} && forall d :: d in durations ==> gap <= 5.0 * d))
  }

  /** A pair is good exactly if its runs agree on the order, some gap is known, none is contradicted and all are tolerable. */
  lemma GoodIff(p: Pair)
    ensures CheckPair(p) == Ok(GoodPair) <==>
      && SameOrder(p) && GapsOf(p) != {} && !Contradicted(p)
      && !EndsBeforeStarting(p.baseline) && !EndsBeforeStarting(p.candidate)
      && forall g :: g in GapsOf(p) ==> Tolerable(p, g)
    ensures CheckPair(p) == Ok(UnknownGap) <==> SameOrder(p) && GapsOf(p) == {}
    ensures CheckPair(p) == Ok(SuspectPair(true)) <==> SameOrder(p) && Contradicted(p)
  {
    GapIsGreatest(p);
    DurationIsLeast(p);
    ContradictedIff(p);
    NoGapNoConflict(p);
    hide PairTimeGap, PairDuration, GapsOf, DurationsOf, Contradicted, EndsBeforeStarting;
  }

  ghost predicate Passes(p: Pair) {
    CheckPair(p) == Ok(GoodPair) || CheckPair(p) == Ok(UnknownGap)
  }

  /** Pair `i` is the first that does not pass. */
  ghost predicate FirstStop(pairs: seq<Pair>, i: nat) {
    i < |pairs| && !Passes(pairs[i]) && forall j :: 0 <= j < i ==> Passes(pairs[j])
  }

  /** When every pair passes, one unknown gap makes the quality unknown. */
  lemma {:induction false} AllPass(pairs: seq<Pair>)
    requires forall i :: 0 <= i < |pairs| ==> Passes(pairs[i])
    ensures CheckPairs(pairs) == Ok(PairDiagnostics(
      if exists i :: 0 <= i < |pairs| && CheckPair(pairs[i]) == Ok(UnknownGap) then Unknown else Good, false, false))
  {
    if pairs != [] {
      var n := |pairs| - 1;
      AllPass(pairs[..n]);
      assert Passes(pairs[n]);
      hide CheckPair;
      assert forall i :: 0 <= i < n ==> pairs[..n][i] == pairs[i];
    }
  }

  /** Otherwise the first pair that does not pass decides: it raises, or makes the quality suspect. */
  lemma FirstStopDecides(pairs: seq<Pair>, i: nat)
    requires FirstStop(pairs, i)
    ensures CheckPairs(pairs) ==
      match CheckPair(pairs[i])
      case Err(error) => Err(error)
      case Ok(check) => Ok(PairDiagnostics(Suspect, check == SuspectPair(true), false))
  {
    var front := pairs[..i];
    forall j | 0 <= j < |front| ensures Passes(front[j]) {
      assert front[j] == pairs[j];
    }
    AllPass(front);
    hide CheckPair;
    assert pairs[..i + 1][..i] == front;
    StoppedEarly(pairs, i + 1);
  }

  /** Some pair is the first not to pass, unless all pass. */
  lemma SomethingStops(pairs: seq<Pair>) returns (i: nat)
    ensures i <= |pairs| && (i < |pairs| ==> FirstStop(pairs, i))
    ensures i == |pairs| ==> forall j :: 0 <= j < |pairs| ==> Passes(pairs[j])
  {
    hide Passes;
    i := 0;
    while i < |pairs| && Passes(pairs[i])
      invariant i <= |pairs| && forall j :: 0 <= j < i ==> Passes(pairs[j])
    {
      i := i + 1;
    }
  }

  /** An overlap is reported as such, and only then; without one the loop decides. */
  lemma OverlapIff(pairs: seq<Pair>)
    ensures var r := PairQualityOf(pairs);
      if HaveTimeOverlap(PairRecords(pairs)) then
        r.Ok? && r.value.quality == Suspect && r.value.runOverlap && !r.value.timeGapConflict
      else r == CheckPairs(pairs)
  {}

  lemma NoGapNoConflict(p: Pair)
    ensures PairTimeGap(p).effective == None ==> !PairTimeGap(p).sourceConflict
  {}

  /** It fails exactly for a run that ends before it starts, in a pair whose gap is known, short and not contradicted. */
  lemma FailsIff(p: Pair)
    ensures CheckPair(p).Err? <==>
      && SameOrder(p) && GapsOf(p) != {} && !Contradicted(p) && (forall g :: g in GapsOf(p) ==> g <= 300.0)
      && (EndsBeforeStarting(p.baseline) || EndsBeforeStarting(p.candidate))
  {
    GapIsGreatest(p);
    DurationIsLeast(p);
    ContradictedIff(p);
    NoGapNoConflict(p);
    hide PairTimeGap, PairDuration, GapsOf, DurationsOf, Contradicted, EndsBeforeStarting;
  }
}
