/**
 Pairs of runs taken one after the other.  Such pairs are matched in full and found good, so that
 steady ones are accepted from ten on; ten of them are the input for which a run without a key undoes
 an acceptance.
 */
module SteadyPairs {
  import opened Wrappers
  import opened FiniteSets
  import opened RealSeq
  import opened StatsTypes
  import opened Autocorrelation
  import opened Bootstrap
  import opened RecordOrder
  import opened Pairing
  import opened Comparison
  import opened Acceptance

  predicate TakesTime(r: RunRecord) {
    Timed(r) && r.startedAt.value < r.endedAt.value
  }

  /** `a` is over when `b` starts. */
  predicate Before(a: RunRecord, b: RunRecord) {
    a.endedAt.Some? && b.startedAt.Some? && a.endedAt.value <= b.startedAt.value
  }

  /** No two runs at the same time. */
  ghost predicate Separate(s: seq<RunRecord>) {
    && (forall i :: 0 <= i < |s| ==> TakesTime(s[i]))
    && forall i, j :: 0 <= i < j < |s| ==> Before(s[i], s[j]) || Before(s[j], s[i])
  }

  /** One after the other as listed. */
  ghost predicate Successive(s: seq<RunRecord>) {
    && (forall i :: 0 <= i < |s| ==> TakesTime(s[i]))
    && forall i, j :: 0 <= i < j < |s| ==> Before(s[i], s[j])
  }

  /** Measured runs that can be paired, under different keys. */
  ghost predicate Pairable(s: seq<RunRecord>) {
    DistinctKeys(s) && forall i :: 0 <= i < |s| ==> s[i].measured && Keyed(s[i]) && s[i].score.Some?
  }

  /** Runs under one key and order whose starts lie at most five seconds apart. */
  predicate Partners(x: RunRecord, y: RunRecord) {
    && x.pairKey == y.pairKey && x.pairOrder.Some? && x.pairOrder == y.pairOrder
    && x.pairTimeGapSec == None && y.pairTimeGapSec == None
    && DerivedGap(Pair(x, y)).Some? && DerivedGap(Pair(x, y)).value <= GAP_FLOOR_SEC
  }

  ghost predicate PairedArms(b: seq<RunRecord>, c: seq<RunRecord>) {
    && |b| == |c| && b != [] && Pairable(b) && Pairable(c)
    && Successive(b) && Successive(c) && Separate(b + c)
    && forall i :: 0 <= i < |b| ==> Partners(b[i], c[i])
  }

  function Zip(b: seq<RunRecord>, c: seq<RunRecord>): (pairs: seq<Pair>)
    requires |b| <= |c|
    ensures |pairs| == |b|
  {
    seq(|b|, i requires 0 <= i < |b| => Pair(b[i], c[i]))
  }

  lemma ListedInOrder(s: seq<RunRecord>)
    requires Pairable(s) && Successive(s)
    ensures OrderedMeasured(s) == s
  {
    forall i, j | 0 <= i < j < |s| ensures LexLeqOfRuns(s[i], s[j]) {
      assert Before(s[i], s[j]) && TakesTime(s[i]);
      var x, y := CoarseKey(s[i]), CoarseKey(s[j]);
      assert x[1..][0] == s[i].startedAt.value && y[1..][0] == s[j].startedAt.value;
    }
    BareRunsInOrder(s);
  }

  lemma {:induction false} EveryRunIsKeyed(s: seq<RunRecord>)
    requires Pairable(s)
    ensures RecordsByPairKey(s) == Ok(s)
  {
    if s != [] {
      var front, last := s[..|s| - 1], s[|s| - 1];
      EveryRunIsKeyed(front);
      assert s == front + [last];
      PairKeysSnoc(front, last);
    }
  }

  lemma {:induction false} EveryRunIsMatched(b: seq<RunRecord>, c: seq<RunRecord>)
    requires |b| <= |c| && DistinctKeys(c)
    requires forall i :: 0 <= i < |b| ==> b[i].pairKey == c[i].pairKey
    ensures MatchedPairs(b, c) == Zip(b, c)
  {
    if b != [] {
      var front, last := b[..|b| - 1], b[|b| - 1];
      EveryRunIsMatched(front, c);
      var partner := WithKey(c, last.pairKey);
      assert c[|b| - 1].pairKey == last.pairKey;
      var j :| 0 <= j < |c| && c[j] == partner.value;
      assert j == |b| - 1;
      assert Zip(b, c) == Zip(front, c) + [Pair(last, c[|b| - 1])];
    } else {
      assert Zip(b, c) == [];
    }
  }

  lemma PairedInFull(b: seq<RunRecord>, c: seq<RunRecord>)
    requires PairedArms(b, c)
    ensures |b| == |c| && OrderedMeasured(b) == b && OrderedMeasured(c) == c
    ensures PairedScoreSamples(b, c) == Ok(Some(PairedSamples(Zip(b, c), false)))
  {
    ListedInOrder(b);
    ListedInOrder(c);
    hide OrderedMeasured;
    EveryRunIsKeyed(b);
    EveryRunIsKeyed(c);
    EveryRunIsMatched(b, c);
  }

  lemma SeparateAreDistinct(s: seq<RunRecord>)
    requires Separate(s)
    ensures forall i, j :: 0 <= i < j < |s| ==> s[i] != s[j]
  {
    forall i, j | 0 <= i < j < |s| ensures s[i] != s[j] {
      assert TakesTime(s[i]) && TakesTime(s[j]);
    }
  }

  /** Of two separate runs the one that starts first ends first. */
  lemma FirstStartedFirstOver(s: seq<RunRecord>, x: RunRecord, y: RunRecord)
    requires Separate(s) && x in s && y in s && x != y && StartsNoLater(x, y)
    ensures !RunsInto(x, y)
  {
    var i :| 0 <= i < |s| && s[i] == x;
    var j :| 0 <= j < |s| && s[j] == y;
    assert TakesTime(s[i]) && TakesTime(s[j]);
    assert i < j || j < i;
  }

  lemma SeparateRunsDoNotOverlap(s: seq<RunRecord>)
    requires Separate(s)
    ensures !HaveTimeOverlap(s)
  {
    var t := InOrder(s);
    InOrderSorts(s);
    NeighboursSuffice(s);
    SeparateAreDistinct(s);
    hide InOrder, HaveTimeOverlap, Separate, RunsInto, StartsNoLater, Chronological;
    MultisetKeepsDistinct(s, t);
    forall i, j | 0 <= i < j < |t| ensures !RunsInto(t[i], t[j]) {
      assert t[i] in multiset(s) && t[j] in multiset(s);
      StartedInOrder(t, i, j);
      FirstStartedFirstOver(s, t[i], t[j]);
    }
  }

  lemma PartnersAreGood(x: RunRecord, y: RunRecord)
    requires TakesTime(x) && TakesTime(y) && Partners(x, y)
    ensures CheckPair(Pair(x, y)) == Ok(GoodPair)
  {}

  lemma PairedWell(b: seq<RunRecord>, c: seq<RunRecord>)
    requires PairedArms(b, c)
    ensures |b| == |c| && PairQualityOf(Zip(b, c)).Ok? && PairQualityOf(Zip(b, c)).value.quality == Good
  {
    var pairs := Zip(b, c);
    assert PairRecords(pairs) == b + c;
    SeparateRunsDoNotOverlap(b + c);
    forall i | 0 <= i < |pairs| ensures CheckPair(pairs[i]) == Ok(GoodPair) {
      PartnersAreGood(b[i], c[i]);
    }
    hide HaveTimeOverlap, CheckPair;
    GoodQualityMeansEveryPair(pairs);
  }

  /**
   Steady pairs taken one after the other are compared in pairs, and accepted if and only if there are
   ten of them, made under one plan, that improve beyond the threshold, whatever is drawn.
   */
  lemma PairedImprovementIsAcceptedIff(
      sqrt: real -> real, baseline: seq<RunRecord>, candidate: seq<RunRecord>, b: real, c: real, direction: Direction,
      settings: Settings, draws: Draws, thresholdPct: real)
    requires IsSquareRoot(sqrt) && Uniform(draws) && InvalidSettings(settings) == None && thresholdPct >= 0.0
    requires SteadyScored(baseline, b, direction) && SteadyScored(candidate, c, direction)
    requires PairedArms(baseline, candidate)
    ensures
      var r := CompareRunRecords(sqrt, baseline, candidate, settings, draws);
      && r.Ok? && r.value.paired && r.value.objectiveDirection == direction
      && r.value.ciLow == SignedEffect(b, c, direction)
      && (CanAccept(r.value, true, "confirmed", thresholdPct, direction) == Ok(Accepted) <==>
            && |baseline| >= MIN_VALID_FOR_SIGNIFICANCE && UniformProvenance(baseline + candidate)
            && Absolute(b) > settings.baseZeroTolerance
            && Exceeds(SignedEffect(b, c, direction), b, thresholdPct))
  {
    hide OrderedMeasured, SteadyScored, UniformProvenance, CompareRunRecords, CanAccept, Exceeds, Absolute,
      PairQualityOf, PairedScoreSamples, IsSquareRoot, Uniform, PairedArms;
    PairedInFull(baseline, candidate);
    PairedWell(baseline, candidate);
    SteadyPairsAreAcceptedIff(sqrt, baseline, candidate, b, c, direction, settings, draws, thresholdPct,
      PairedSamples(Zip(baseline, candidate), false));
  }

  /** The `k`-th run of an arm: baseline and candidate take turns of a second, half of it measuring. */
  function TurnRun(k: nat, isCandidate: bool, score: real): RunRecord {
    var start := (2 * k + if isCandidate then 1 else 0) * 1000000;
    RunRecord(true, true, Some(score), HigherIsBetter, Some(k), Some(start), Some(start + 500000), None,
      Some(seq(k + 1, _ => 'k')), Some(BaselineFirst), None, Some("plan"), Some("commit"), Some("benchmark"),
      Some("objective"))
  }

  function Arm(n: nat, isCandidate: bool, score: real): (s: seq<RunRecord>)
    ensures |s| == n
  {
    seq(n, k requires 0 <= k < n => TurnRun(k, isCandidate, score))
  }

  lemma ArmIsPairable(n: nat, isCandidate: bool, score: real)
    ensures var s := Arm(n, isCandidate, score);
      Pairable(s) && Successive(s) && SteadyScored(s, score, HigherIsBetter)
  {
    var s := Arm(n, isCandidate, score);
    forall i, j | 0 <= i < j < n ensures s[i].pairKey != s[j].pairKey {
      assert |s[i].pairKey.value| == i + 1 && |s[j].pairKey.value| == j + 1;
    }
  }

  lemma TurnsAreSeparate(n: nat, b: real, c: real)
    ensures Separate(Arm(n, false, b) + Arm(n, true, c))
  {
    var x, y := Arm(n, false, b), Arm(n, true, c);
    ArmIsPairable(n, false, b);
    ArmIsPairable(n, true, c);
    var s := x + y;
    forall i, j | 0 <= i < j < |s| ensures Before(s[i], s[j]) || Before(s[j], s[i]) {
      if i < n <= j {
        TurnsDoNotMeet(i, j - n, b, c);
      }
    }
  }

  lemma TurnsDoNotMeet(i: nat, j: nat, b: real, c: real)
    ensures
      var x, y := TurnRun(i, false, b), TurnRun(j, true, c);
      Before(x, y) || Before(y, x)
  {}

  lemma ArmsArePaired(n: nat, b: real, c: real)
    requires n > 0
    ensures PairedArms(Arm(n, false, b), Arm(n, true, c))
    ensures UniformProvenance(Arm(n, false, b) + Arm(n, true, c))
  {
    ArmIsPairable(n, false, b);
    ArmIsPairable(n, true, c);
    TurnsAreSeparate(n, b, c);
    hide Separate, Successive, Pairable;
  }

  /** Arms that take turns are accepted exactly from ten pairs on, for every sample of the bootstrap. */
  lemma TurnsAreAcceptedIff(
      sqrt: real -> real, n: nat, b: real, c: real, settings: Settings, draws: Draws, thresholdPct: real)
    requires IsSquareRoot(sqrt) && Uniform(draws) && InvalidSettings(settings) == None && thresholdPct >= 0.0
    requires n > 0 && Absolute(b) > settings.baseZeroTolerance && Exceeds(c - b, b, thresholdPct)
    ensures
      var r := CompareRunRecords(sqrt, Arm(n, false, b), Arm(n, true, c), settings, draws);
      && r.Ok? && r.value.paired && r.value.objectiveDirection == HigherIsBetter && r.value.ciLow == c - b
      && (CanAccept(r.value, true, "confirmed", thresholdPct, HigherIsBetter) == Ok(Accepted) <==>
            n >= MIN_VALID_FOR_SIGNIFICANCE)
  {
    hide CompareRunRecords, CanAccept, Exceeds, Absolute, IsSquareRoot, Uniform, PairedArms, UniformProvenance, Arm,
      SteadyScored;
    ArmIsPairable(n, false, b);
    ArmIsPairable(n, true, c);
    ArmsArePaired(n, b, c);
    PairedImprovementIsAcceptedIff(
      sqrt, Arm(n, false, b), Arm(n, true, c), b, c, HigherIsBetter, settings, draws, thresholdPct);
  }

  lemma OutlierJoins(n: nat, b: real, c: real, score: real, settings: Settings)
    requires n > 0 && InvalidSettings(settings) == None
    ensures
      var x, y := Arm(n, false, b), Arm(n, true, c);
      var after := x + [UnplacedRun(score, x[0])];
      && SameKeyed(x, after) && Prepare(after, y, settings).Ok?
      && Prepare(after, y, settings).value.baselineScores == seq(n, i => b) + [score]
  {
    hide Prepare, OrderedMeasured, PairedScoreSamples, PairQualityOf, PairedArms, SteadyScored, SameKeyed;
    var x, y := Arm(n, false, b), Arm(n, true, c);
    ArmIsPairable(n, false, b);
    ArmIsPairable(n, true, c);
    ArmsArePaired(n, b, c);
    PairedInFull(x, y);
    PairedWell(x, y);
    SteadyPairedPrepared(x, y, b, c, HigherIsBetter, settings, PairedSamples(Zip(x, y), false));
    UnplacedComesLast(x, UnplacedRun(score, x[0]));
    ExtraPrepared(x, x + [UnplacedRun(score, x[0])], UnplacedRun(score, x[0]), score, y, settings);
  }

  lemma OutlierMean()
    ensures Mean(seq(10, i => 1.0) + [210.0]) == 20.0
  {
    SumSnoc(seq(10, i => 1.0), 210.0);
    SteadyMean(10, 1.0);
  }

  /**
   Ten pairs scoring 1.0 and 2.0 are accepted at a threshold of five per cent, and no longer once the
   baseline has one more run, of score 210.0 and without a key: the verdict is the same as before.
   */
  lemma OutlierUndoesTenPairs(sqrt: real -> real, settings: Settings, draws: Draws)
    requires IsSquareRoot(sqrt) && Uniform(draws) && InvalidSettings(settings) == None
    requires settings.baseZeroTolerance < 1.0
    ensures
      var b, c := Arm(10, false, 1.0), Arm(10, true, 2.0);
      var r := CompareRunRecords(sqrt, b, c, settings, draws);
      var r' := CompareRunRecords(sqrt, b + [UnplacedRun(210.0, b[0])], c, settings, draws);
      && r.Ok? && r.value.paired && CanAccept(r.value, true, "confirmed", 5.0, HigherIsBetter) == Ok(Accepted)
      && r'.Ok? && r'.value.verdict == r.value.verdict && r'.value.ciLow == r.value.ciLow
      && CanAccept(r'.value, true, "confirmed", 5.0, HigherIsBetter) != Ok(Accepted)
  {
    hide CompareRunRecords, CanAccept, IsSquareRoot, Uniform, Arm, Prepare, OrderedMeasured, KeyedOnly,
      UniformProvenance, Mean, UnplacedRun;
    var b, c := Arm(10, false, 1.0), Arm(10, true, 2.0);
    TurnsAreAcceptedIff(sqrt, 10, 1.0, 2.0, settings, draws, 5.0);
    OutlierJoins(10, 1.0, 2.0, 210.0, settings);
    OutlierMean();
    UnkeyedRunsDecideIff(sqrt, b, b + [UnplacedRun(210.0, b[0])], c, c, settings, draws,
      CompareRunRecords(sqrt, b, c, settings, draws).value, 5.0);
  }
}
