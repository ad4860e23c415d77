/**
 The accept gate, and what an accepted result says about the runs it came from.
 */
module Acceptance {
  import opened Wrappers
  import opened RealSeq
  import opened StatsTypes
  import opened Autocorrelation
  import opened Quantile
  import opened Bootstrap
  import opened RecordOrder
  import opened Pairing
  import opened Comparison
  import FamilyScreen
  import Sorting

  datatype Decision =
    | Accepted
    | RejectedInsignificant
    | RejectedPairQuality
    | RejectedNotScreened
    | RejectedPracticalThreshold
    | RejectedRelativeThresholdUnavailable
    | NeedsConfirmation
    | RejectedIncompleteProvenance

  /** `can_accept`. */
  function CanAccept(
      r: StatisticalResult, familyScreened: bool, confirmationStatus: string,
      practicalThresholdPct: real, direction: Direction): Result<Decision, StatsError>
  {
    if direction != r.objectiveDirection then Err(DirectionMismatch)
    else if practicalThresholdPct < 0.0 then Err(BadPracticalThreshold)
    else if r.paired && r.pairQuality != Good then Ok(RejectedPairQuality)
    else if r.verdict != SignificantImprovement || !DecisionGrade(r) then Ok(RejectedInsignificant)
    else if !familyScreened then Ok(RejectedNotScreened)
    else if confirmationStatus != "confirmed" then Ok(NeedsConfirmation)
    else if !r.provenanceComplete then Ok(RejectedIncompleteProvenance)
    else if r.relativeCiLowPct == None then Ok(RejectedRelativeThresholdUnavailable)
    else if r.relativeCiLowPct.value <= practicalThresholdPct then Ok(RejectedPracticalThreshold)
    else Ok(Accepted)
  }

  /** An effect of more than `thresholdPct` per cent of the baseline mean, in absolute value. */
  ghost predicate Exceeds(effect: real, baselineMean: real, thresholdPct: real) {
    effect * 100.0 > thresholdPct * Absolute(baselineMean)
  }

  /** Enough data, by the gates of the verdict. */
  ghost predicate EnoughData(r: StatisticalResult) {
    && r.nValid >= 10 && r.ess.Some? && r.ess.value >= 5.0
    && (r.paired && r.autocorrelationDetected ==> r.nValid >= 60)
    && (!r.paired ==> !r.autocorrelationDetected)
  }

  ghost predicate NoneRunsIntoALater(s: seq<RunRecord>) {
    forall i, j :: 0 <= i < j < |s| ==> !RunsInto(s[i], s[j])
  }

  /** Every keyed run has its partner, every pair is close, and no paired run runs into a later one. */
  ghost predicate SoundPairing(p: Prepared)
    requires p.samples.Some?
  {
    var b, c := RecordsByPairKey(p.baselineMeasured), RecordsByPairKey(p.candidateMeasured);
    && b.Ok? && c.Ok? && KeysOf(b.value) == KeysOf(c.value)
    && NoneRunsIntoALater(InOrder(PairRecords(p.samples.value.pairs)))
    && forall i :: 0 <= i < |p.samples.value.pairs| ==> CloselyPaired(p.samples.value.pairs[i])
  }

  /** Some pair, or some combination of a baseline and a candidate run, shows the improvement. */
  ghost predicate SomeRunsImproved(p: Prepared, thresholdPct: real)
    requires p.Valid()
  {
    match p.samples
    case Some(s) =>
      exists i :: 0 <= i < |s.pairs|
        && Exceeds(PairEffects(s.pairs, p.direction)[i], Mean(p.baselineScores), thresholdPct)
    case None =>
      exists i, j :: 0 <= i < |p.baselineScores| && 0 <= j < |p.candidateScores|
        && Exceeds(SignedEffect(p.baselineScores[i], p.candidateScores[j], p.direction),
             Mean(p.baselineScores), thresholdPct)
  }

  ghost predicate UniformProvenance(records: seq<RunRecord>) {
    forall i, j :: 0 <= i < |records| && 0 <= j < |records| ==>
      && records[i].measurementPlanId.Some? && records[i].measurementPlanId == records[j].measurementPlanId
      && records[i].sourceCommit.Some? && records[i].sourceCommit == records[j].sourceCommit
      && records[i].benchmarkId.Some? && records[i].benchmarkId == records[j].benchmarkId
      && records[i].objectiveId.Some? && records[i].objectiveId == records[j].objectiveId
  }

  lemma RelativeExceeds(x: real, mean: real, tolerance: real, thresholdPct: real)
    requires tolerance >= 0.0
    requires RelativePct(x, mean, tolerance).Some? && RelativePct(x, mean, tolerance).value > thresholdPct
    ensures Exceeds(x, mean, thresholdPct)
  {
    var m := Absolute(mean);
    var ratio := x / m;
    assert ratio * m == x;
    var scaled, bound := x * 100.0, thresholdPct * m;
    var excess := ratio * 100.0 - thresholdPct;
    assert excess * m == scaled - bound;
    PositiveProduct(excess, m, scaled - bound);
  }

  /** A larger effect exceeds whatever a smaller one does. */
  lemma ExceedsGrows(x: real, y: real, mean: real, thresholdPct: real)
    requires x <= y && Exceeds(x, mean, thresholdPct)
    ensures Exceeds(y, mean, thresholdPct)
  {}

  lemma GatesPassed(sqrt: real -> real, p: Prepared, settings: Settings, ci: BootstrapCi)
    requires p.Valid() && InvalidSettings(settings) == None
    requires Assemble(sqrt, p, settings, ci).verdict == SignificantImprovement
    ensures EnoughData(Assemble(sqrt, p, settings, ci)) && ci.ciLow > 0.0
    ensures p.samples.Some? ==> p.quality.quality == Good && !p.samples.value.partialPairing
  {
    hide Mean, HighCv, CompleteProvenance, RelativePct, Exploratory;
  }

  lemma PreparedPairing(baseline: seq<RunRecord>, candidate: seq<RunRecord>, settings: Settings)
    requires Prepare(baseline, candidate, settings).Ok?
    ensures var p := Prepare(baseline, candidate, settings).value;
      && p.baselineMeasured == OrderedMeasured(baseline) && p.candidateMeasured == OrderedMeasured(candidate)
      && PairedScoreSamples(p.baselineMeasured, p.candidateMeasured) == Ok(p.samples)
      && (p.samples.Some? ==> PairQualityOf(p.samples.value.pairs) == Ok(p.quality))
  {
    hide OrderedMeasured, PairedScoreSamples, PairQualityOf, MeasuredValidScores, ObjectiveDirection, InvalidSettings;
  }

  lemma GoodPairingIsSound(baseline: seq<RunRecord>, candidate: seq<RunRecord>, settings: Settings)
    requires Prepare(baseline, candidate, settings).Ok?
    requires var p := Prepare(baseline, candidate, settings).value;
      p.samples.Some? && p.quality.quality == Good && !p.samples.value.partialPairing
    ensures SoundPairing(Prepare(baseline, candidate, settings).value)
  {
    hide Prepare, OrderedMeasured, HaveTimeOverlap, CheckPair, CloselyPaired, KeysOf;
    PreparedPairing(baseline, candidate, settings);
    var p := Prepare(baseline, candidate, settings).value;
    FullPairingMatchesEveryKey(p.baselineMeasured, p.candidateMeasured);
    var pairs := p.samples.value.pairs;
    GoodQualityMeansEveryPair(pairs);
    NeighboursSuffice(PairRecords(pairs));
    forall i | 0 <= i < |pairs| ensures CloselyPaired(pairs[i]) {
      GoodPairIsClose(pairs[i]);
    }
  }

  lemma ImprovementIsReal(sqrt: real -> real, p: Prepared, settings: Settings, draws: Draws, thresholdPct: real)
    requires IsSquareRoot(sqrt) && p.Valid() && InvalidSettings(settings) == None && Uniform(draws)
    requires Exceeds(ComparisonCi(sqrt, p, settings, draws).ciLow, Mean(p.baselineScores), thresholdPct)
    ensures SomeRunsImproved(p, thresholdPct)
  {
    hide Exceeds, AwareBlock, Diagnose, SortedReplicates, CiLow, CiHigh, TwoSidedPValue, Mean, IsSquareRoot, Uniform;
    var mean, low := Mean(p.baselineScores), ComparisonCi(sqrt, p, settings, draws).ciLow;
    match p.samples
    case Some(s) =>
      var effects := PairEffects(s.pairs, p.direction);
      PercentileIntervalWithin(effects, draws, AwareBlock(sqrt, effects), settings.samples, settings.confidence);
      var j :| 0 <= j < |effects| && low <= effects[j];
      ExceedsGrows(low, effects[j], mean, thresholdPct);
    case None =>
      UnpairedIntervalBracketed(sqrt, p.baselineScores, p.candidateScores, p.direction,
        settings.confidence, settings.samples, draws);
      var i, j :| 0 <= i < |p.baselineScores| && 0 <= j < |p.candidateScores|
        && low <= SignedEffect(p.baselineScores[i], p.candidateScores[j], p.direction);
      ExceedsGrows(low, SignedEffect(p.baselineScores[i], p.candidateScores[j], p.direction), mean, thresholdPct);
  }

  lemma ProvenanceIsUniform(records: seq<RunRecord>)
    ensures CompleteProvenance(records) <==> records != [] && UniformProvenance(records)
  {
    var n := |records|;
    if CompleteProvenance(records) {
      forall i, j | 0 <= i < n && 0 <= j < n
        ensures records[i].measurementPlanId.Some? && records[i].measurementPlanId == records[j].measurementPlanId
        ensures records[i].sourceCommit.Some? && records[i].sourceCommit == records[j].sourceCommit
        ensures records[i].benchmarkId.Some? && records[i].benchmarkId == records[j].benchmarkId
        ensures records[i].objectiveId.Some? && records[i].objectiveId == records[j].objectiveId
      {
        var plan := seq(n, k requires 0 <= k < n => records[k].measurementPlanId);
        var commit := seq(n, k requires 0 <= k < n => records[k].sourceCommit);
        var bench := seq(n, k requires 0 <= k < n => records[k].benchmarkId);
        var objective := seq(n, k requires 0 <= k < n => records[k].objectiveId);
        assert plan[i] == plan[0] == plan[j] && commit[i] == commit[0] == commit[j];
        assert bench[i] == bench[0] == bench[j] && objective[i] == objective[0] == objective[j];
      }
    }
  }

  lemma OneSidedIntervalCapsPValue(sqrt: real -> real, p: Prepared, settings: Settings, draws: Draws)
    requires p.Valid() && InvalidSettings(settings) == None && Uniform(draws)
    requires ComparisonCi(sqrt, p, settings, draws).ciLow > 0.0 || ComparisonCi(sqrt, p, settings, draws).ciHigh < 0.0
    ensures ComparisonCi(sqrt, p, settings, draws).pValue
      <= TailBound(settings.samples, Ceil(TailPosition(settings.samples, settings.confidence)))
  {
    hide AwareBlock, Diagnose, CiLow, CiHigh, TwoSidedPValue, Mean, Replicates, UnpairedReplicates, Uniform,
      TailBound, TailPosition, CombineDiagnostics;
    match p.samples
    case Some(s) =>
      var effects := PairEffects(s.pairs, p.direction);
      var block := AwareBlock(sqrt, effects);
      SortedIsAscending(Replicates(effects, draws, block, settings.samples));
      ExclusionCapsPValue(SortedReplicates(effects, draws, block, settings.samples), settings.confidence);
    case None =>
      var effects := UnpairedReplicates(p.baselineScores, p.candidateScores, p.direction, draws,
        AwareBlock(sqrt, p.baselineScores), AwareBlock(sqrt, p.candidateScores), settings.samples);
      Sorting.SortPermutes(effects, RealLeq);
      SortedIsAscending(effects);
      ExclusionCapsPValue(Sorting.Sort(effects, RealLeq), settings.confidence);
  }

  /**
   End to end: an accepted comparison rests on enough, soundly paired, uniformly produced data, its
   p-value is capped, and the improvement beyond the practical threshold shows in actual runs.
   */
  lemma AcceptedMeansImproved(
      sqrt: real -> real, baseline: seq<RunRecord>, candidate: seq<RunRecord>, settings: Settings, draws: Draws,
      r: StatisticalResult, familyScreened: bool, confirmationStatus: string, thresholdPct: real, direction: Direction)
    requires IsSquareRoot(sqrt) && Uniform(draws)
    requires CompareRunRecords(sqrt, baseline, candidate, settings, draws) == Ok(r)
    requires CanAccept(r, familyScreened, confirmationStatus, thresholdPct, direction) == Ok(Accepted)
    ensures familyScreened && confirmationStatus == "confirmed" && direction == r.objectiveDirection
    ensures EnoughData(r)
    ensures r.pValue.Some? && settings.samples > 0
    ensures r.pValue.value <= TailBound(settings.samples, Ceil(TailPosition(settings.samples, settings.confidence)))
    ensures Prepare(baseline, candidate, settings).Ok?
    ensures
      var p := Prepare(baseline, candidate, settings).value;
      && (p.samples.Some? <==> r.paired)
      && (p.samples.Some? ==> SoundPairing(p))
      && UniformProvenance(OrderedMeasured(baseline) + OrderedMeasured(candidate))
      && SomeRunsImproved(p, thresholdPct)
  {
    hide Prepare, ComparisonCi, HighCv, Exploratory, CompleteProvenance, SoundPairing, SomeRunsImproved,
      UniformProvenance, OrderedMeasured, Exceeds, TailBound, TailPosition, MeetsSchema, IsSquareRoot, Uniform,
      VerdictFor, Conclusive, EvidenceOf, RelativePct, Mean, EnoughData;
    var p := Prepare(baseline, candidate, settings).value;
    var ci := ComparisonCi(sqrt, p, settings, draws);
    assert r == Assemble(sqrt, p, settings, ci);
    GatesPassed(sqrt, p, settings, ci);
    PreparedPairing(baseline, candidate, settings);
    if p.samples.Some? {
      GoodPairingIsSound(baseline, candidate, settings);
    }
    ProvenanceIsUniform(p.baselineMeasured + p.candidateMeasured);
    RelativeExceeds(ci.ciLow, Mean(p.baselineScores), settings.baseZeroTolerance, thresholdPct);
    ImprovementIsReal(sqrt, p, settings, draws, thresholdPct);
    OneSidedIntervalCapsPValue(sqrt, p, settings, draws);
  }

  /**
   And when its place in the family decided the screening, its p-value is within the family's bound
   too: of `m` results, `k` of them selected, at most `q * k / m`.
   */
  lemma AcceptedInFamily(
      sqrt: real -> real, baseline: seq<RunRecord>, candidate: seq<RunRecord>, settings: Settings, draws: Draws,
      results: seq<StatisticalResult>, i: nat, q: real, selected: seq<bool>,
      confirmationStatus: string, thresholdPct: real, direction: Direction)
    requires IsSquareRoot(sqrt) && Uniform(draws)
    requires i < |results| && CompareRunRecords(sqrt, baseline, candidate, settings, draws) == Ok(results[i])
    requires FamilyScreen.IsScreened(results, q, selected)
    requires CanAccept(results[i], selected[i], confirmationStatus, thresholdPct, direction) == Ok(Accepted)
    ensures results[i].pValue.Some? && settings.samples > 0
    ensures results[i].pValue.value * |results| as real <= q * |FamilyScreen.Selected(selected)| as real
    ensures results[i].pValue.value
      <= TailBound(settings.samples, Ceil(TailPosition(settings.samples, settings.confidence)))
  {
    hide CompareRunRecords, CanAccept, Prepare, OrderedMeasured, TailBound, TailPosition, IsSquareRoot, Uniform,
      SoundPairing, SomeRunsImproved, EnoughData, UniformProvenance;
    AcceptedMeansImproved(sqrt, baseline, candidate, settings, draws, results[i], selected[i], confirmationStatus,
      thresholdPct, direction);
    assert i in FamilyScreen.Selected(selected);
  }

  /** Valid measured runs that all score the same. */
  ghost predicate SteadyScored(records: seq<RunRecord>, score: real, direction: Direction) {
    forall r :: r in records && r.measured ==> r.validForScoring && r.score == Some(score) && r.direction == direction
  }

  /** And none of them carries a pair key. */
  ghost predicate SteadyArm(records: seq<RunRecord>, score: real, direction: Direction) {
    SteadyScored(records, score, direction) && forall r :: r in records && r.measured ==> r.pairKey == None
  }

  lemma {:induction false} SteadyScores(s: seq<RunRecord>, score: real, direction: Direction)
    requires SteadyScored(s, score, direction) && forall i :: 0 <= i < |s| ==> s[i].measured
    ensures ScoresOf(s) == Ok(seq(|s|, i => score))
  {
    if s != [] {
      var front, last := s[..|s| - 1], s[|s| - 1];
      assert last in s && forall r :: r in front ==> r in s;
      SteadyScores(front, score, direction);
      assert seq(|s|, i => score) == seq(|front|, i => score) + [score];
    } else {
      assert seq(|s|, i => score) == [];
    }
  }

  lemma {:induction false} NoKeysNoRecords(s: seq<RunRecord>)
    requires forall i :: 0 <= i < |s| ==> s[i].pairKey == None
    ensures RecordsByPairKey(s) == Ok([])
  {
    if s != [] {
      NoKeysNoRecords(s[..|s| - 1]);
    }
  }

  lemma SteadyMeasured(records: seq<RunRecord>, score: real, direction: Direction)
    requires SteadyScored(records, score, direction)
    ensures var s := OrderedMeasured(records);
      && MeasuredValidScores(s) == Ok(seq(|s|, i => score))
      && forall i :: 0 <= i < |s| ==> s[i].direction == direction
  {
    var s := OrderedMeasured(records);
    MeasuredMembers(records);
    OrderingIsIdempotent(records);
    hide OrderedMeasured;
    assert forall i :: 0 <= i < |s| ==> s[i] in s;
    SteadyScores(s, score, direction);
  }

  lemma SteadyDirection(
      baseline: seq<RunRecord>, candidate: seq<RunRecord>, b: real, c: real, direction: Direction)
    requires SteadyScored(baseline, b, direction) && SteadyScored(candidate, c, direction)
    requires OrderedMeasured(baseline) != []
    ensures ObjectiveDirection(OrderedMeasured(baseline) + OrderedMeasured(candidate)) == Ok(direction)
  {
    SteadyMeasured(baseline, b, direction);
    SteadyMeasured(candidate, c, direction);
    hide OrderedMeasured, MeasuredValidScores, SteadyScored;
  }

  lemma SteadyIsUnpaired(
      baseline: seq<RunRecord>, candidate: seq<RunRecord>, b: real, c: real, direction: Direction)
    requires SteadyArm(baseline, b, direction) && SteadyArm(candidate, c, direction)
    ensures PairedScoreSamples(OrderedMeasured(baseline), OrderedMeasured(candidate)) == Ok(None)
  {
    var x, y := OrderedMeasured(baseline), OrderedMeasured(candidate);
    MeasuredMembers(baseline);
    MeasuredMembers(candidate);
    assert forall i :: 0 <= i < |x| ==> x[i] in x;
    assert forall i :: 0 <= i < |y| ==> y[i] in y;
    hide OrderedMeasured;
    NoKeysNoRecords(x);
    NoKeysNoRecords(y);
  }

  lemma SteadyPrepared(
      baseline: seq<RunRecord>, candidate: seq<RunRecord>, b: real, c: real, direction: Direction, settings: Settings)
    requires SteadyArm(baseline, b, direction) && SteadyArm(candidate, c, direction) && InvalidSettings(settings) == None
    requires OrderedMeasured(baseline) != [] && OrderedMeasured(candidate) != []
    ensures var x, y := OrderedMeasured(baseline), OrderedMeasured(candidate);
      Prepare(baseline, candidate, settings) == Ok(Prepared(
        x, y, seq(|x|, i => b), seq(|y|, i => c), direction, None, PairDiagnostics(Unknown, false, false)))
  {
    hide OrderedMeasured, MeasuredValidScores, RecordsByPairKey, SteadyScored, InvalidSettings, ObjectiveDirection,
      PairedScoreSamples, PairQualityOf;
    SteadyMeasured(baseline, b, direction);
    SteadyMeasured(candidate, c, direction);
    SteadyDirection(baseline, candidate, b, c, direction);
    SteadyIsUnpaired(baseline, candidate, b, c, direction);
  }

  /** Steady scores show no autocorrelation and lose nothing of the sample. */
  lemma SteadyDiagnostics(sqrt: real -> real, n: nat, x: real)
    requires IsSquareRoot(sqrt) && n > 0
    ensures
      var d := Diagnose(sqrt, seq(n, i => x));
      d.ess == Some(n as real) && d.essPreliminary == (n < ACF_MIN_N) && !d.autocorrelationDetected && d.n == n
  {
    var scores := seq(n, i => x);
    UndefinedIffConstant(sqrt, scores, 1);
    hide LagAutocorrelation;
  }

  lemma SteadyMean(n: nat, x: real)
    requires n > 0
    ensures Mean(seq(n, i => x)) == x
  {
    MeanBounds(seq(n, i => x), x, x);
  }

  lemma SteadyInterval(
      sqrt: real -> real, m: nat, n: nat, b: real, c: real, direction: Direction, settings: Settings, draws: Draws)
    requires IsSquareRoot(sqrt) && Uniform(draws) && m > 0 && n > 0 && InvalidSettings(settings) == None
    ensures
      var ci := UnpairedCi(sqrt, seq(m, i => b), seq(n, i => c), direction, settings.confidence, settings.samples, draws);
      var size := if n < m then n else m;
      && ci.pointEstimate == ci.ciLow == ci.ciHigh == SignedEffect(b, c, direction)
      && ci.diagnostics.ess == Some(size as real) && ci.diagnostics.essPreliminary == (size < ACF_MIN_N)
      && !ci.diagnostics.autocorrelationDetected
  {
    SteadyDiagnostics(sqrt, m, b);
    SteadyDiagnostics(sqrt, n, c);
    SteadyMean(m, b);
    SteadyMean(n, c);
    hide Diagnose, AwareBlock, Mean, UnpairedReplicates, CiLow, CiHigh, TwoSidedPValue;
    UnpairedIntervalBracketed(sqrt, seq(m, i => b), seq(n, i => c), direction, settings.confidence, settings.samples, draws);
  }

  lemma ExceedsIsRelative(x: real, mean: real, tolerance: real, thresholdPct: real)
    requires tolerance >= 0.0 && Absolute(mean) > tolerance && Exceeds(x, mean, thresholdPct)
    ensures RelativePct(x, mean, tolerance).Some? && RelativePct(x, mean, tolerance).value > thresholdPct
  {
    var m := Absolute(mean);
    var ratio := x / m;
    assert ratio * m == x;
    if ratio * 100.0 <= thresholdPct {
      ProductNonNegative(thresholdPct - ratio * 100.0, m);
      assert (thresholdPct - ratio * 100.0) * m == thresholdPct * m - x * 100.0;
    }
  }

  /**
   The gates are no stricter than that: steady runs under one plan whose improvement exceeds the
   threshold are accepted if and only if each arm has ten measured runs, whatever is drawn.
   */
  lemma SteadyImprovementIsAcceptedIff(
      sqrt: real -> real, baseline: seq<RunRecord>, candidate: seq<RunRecord>, b: real, c: real, direction: Direction,
      settings: Settings, draws: Draws, thresholdPct: real)
    requires IsSquareRoot(sqrt) && Uniform(draws) && InvalidSettings(settings) == None
    requires SteadyArm(baseline, b, direction) && SteadyArm(candidate, c, direction)
    requires OrderedMeasured(baseline) != [] && OrderedMeasured(candidate) != []
    requires UniformProvenance(OrderedMeasured(baseline) + OrderedMeasured(candidate))
    requires Absolute(b) > settings.baseZeroTolerance && thresholdPct >= 0.0
    requires Exceeds(SignedEffect(b, c, direction), b, thresholdPct)
    ensures
      var r := CompareRunRecords(sqrt, baseline, candidate, settings, draws);
      && r.Ok?
      && (CanAccept(r.value, true, "confirmed", thresholdPct, direction) == Ok(Accepted) <==>
            && |OrderedMeasured(baseline)| >= MIN_VALID_FOR_SIGNIFICANCE
            && |OrderedMeasured(candidate)| >= MIN_VALID_FOR_SIGNIFICANCE)
  {
    hide OrderedMeasured, SteadyArm, UniformProvenance, Prepare, UnpairedCi, MeetsSchema, HighCv, Exploratory,
      CompleteProvenance, Mean, RelativePct, Exceeds;
    var x, y := OrderedMeasured(baseline), OrderedMeasured(candidate);
    SteadyPrepared(baseline, candidate, b, c, direction, settings);
    SteadyInterval(sqrt, |x|, |y|, b, c, direction, settings, draws);
    SteadyMean(|x|, b);
    ComparisonSucceedsIff(sqrt, baseline, candidate, settings, draws);
    ProvenanceIsUniform(x + y);
    ExceedsIsRelative(SignedEffect(b, c, direction), b, settings.baseZeroTolerance, thresholdPct);
    PositiveEffect(SignedEffect(b, c, direction), b, thresholdPct);
  }

  lemma PositiveEffect(effect: real, mean: real, thresholdPct: real)
    requires thresholdPct >= 0.0 && Exceeds(effect, mean, thresholdPct)
    ensures effect > 0.0
  {
    ProductNonNegative(thresholdPct, Absolute(mean));
  }

  lemma SteadyPairedPrepared(
      baseline: seq<RunRecord>, candidate: seq<RunRecord>, b: real, c: real, direction: Direction, settings: Settings,
      s: PairedSamples)
    requires SteadyScored(baseline, b, direction) && SteadyScored(candidate, c, direction)
    requires PairedScoreSamples(OrderedMeasured(baseline), OrderedMeasured(candidate)) == Ok(Some(s))
    requires InvalidSettings(settings) == None && PairQualityOf(s.pairs).Ok?
    ensures var x, y := OrderedMeasured(baseline), OrderedMeasured(candidate);
      Prepare(baseline, candidate, settings) == Ok(Prepared(
        x, y, seq(|x|, i => b), seq(|y|, i => c), direction, Some(s), PairQualityOf(s.pairs).value))
  {
    var x, y := OrderedMeasured(baseline), OrderedMeasured(candidate);
    assert x != [] && y != [];
    hide OrderedMeasured, MeasuredValidScores, RecordsByPairKey, SteadyScored, InvalidSettings, ObjectiveDirection,
      PairedScoreSamples, PairQualityOf;
    SteadyMeasured(baseline, b, direction);
    SteadyMeasured(candidate, c, direction);
    SteadyDirection(baseline, candidate, b, c, direction);
  }

  lemma SteadyKeyed(records: seq<RunRecord>, score: real, direction: Direction)
    requires SteadyScored(records, score, direction) && RecordsByPairKey(OrderedMeasured(records)).Ok?
    ensures forall r :: r in RecordsByPairKey(OrderedMeasured(records)).value ==> r.score == Some(score)
  {
    MeasuredMembers(records);
    KeyedRecordsAreExact(OrderedMeasured(records));
  }

  lemma SteadyEffects(
      baseline: seq<RunRecord>, candidate: seq<RunRecord>, b: real, c: real, direction: Direction, s: PairedSamples)
    requires SteadyScored(baseline, b, direction) && SteadyScored(candidate, c, direction)
    requires PairedScoreSamples(OrderedMeasured(baseline), OrderedMeasured(candidate)) == Ok(Some(s))
    ensures s.pairs != [] && Scored(s.pairs)
    ensures PairEffects(s.pairs, direction) == seq(|s.pairs|, i => SignedEffect(b, c, direction))
  {
    hide OrderedMeasured, RecordsByPairKey, MatchedPairs, SteadyScored;
    SteadyKeyed(baseline, b, direction);
    SteadyKeyed(candidate, c, direction);
    PairsMatch(RecordsByPairKey(OrderedMeasured(baseline)).value, RecordsByPairKey(OrderedMeasured(candidate)).value);
    forall i | 0 <= i < |s.pairs|
      ensures s.pairs[i].baseline.score == Some(b) && s.pairs[i].candidate.score == Some(c)
    {
      assert s.pairs[i] in s.pairs;
    }
  }

  lemma SteadyPairedInterval(sqrt: real -> real, n: nat, effect: real, settings: Settings, draws: Draws)
    requires IsSquareRoot(sqrt) && Uniform(draws) && n > 0 && InvalidSettings(settings) == None
    ensures
      var effects := seq(n, i => effect);
      var ci := PercentileCi(
        sqrt, effects, settings.confidence, settings.samples, draws, AwareBlock(sqrt, effects));
      && ci.pointEstimate == ci.ciLow == ci.ciHigh == effect
      && ci.diagnostics.ess == Some(n as real) && ci.diagnostics.essPreliminary == (n < ACF_MIN_N)
      && !ci.diagnostics.autocorrelationDetected
  {
    SteadyDiagnostics(sqrt, n, effect);
    SteadyMean(n, effect);
    hide Diagnose, AwareBlock, Mean, SortedReplicates, CiLow, CiHigh, TwoSidedPValue;
    var effects := seq(n, i => effect);
    PercentileIntervalWithin(effects, draws, AwareBlock(sqrt, effects), settings.samples, settings.confidence);
  }

  /**
   The same for paired runs: whatever is drawn, steady pairs are accepted if and only if there are
   ten, the pairing is full and good, one plan made them all, and they improve beyond the threshold.
   */
  lemma SteadyPairsAreAcceptedIff(
      sqrt: real -> real, baseline: seq<RunRecord>, candidate: seq<RunRecord>, b: real, c: real, direction: Direction,
      settings: Settings, draws: Draws, thresholdPct: real, s: PairedSamples)
    requires IsSquareRoot(sqrt) && Uniform(draws) && InvalidSettings(settings) == None && thresholdPct >= 0.0
    requires SteadyScored(baseline, b, direction) && SteadyScored(candidate, c, direction)
    requires PairedScoreSamples(OrderedMeasured(baseline), OrderedMeasured(candidate)) == Ok(Some(s))
    requires PairQualityOf(s.pairs).Ok?
    ensures
      var r := CompareRunRecords(sqrt, baseline, candidate, settings, draws);
      && r.Ok? && r.value.paired && r.value.objectiveDirection == direction
      && r.value.ciLow == SignedEffect(b, c, direction)
      && (CanAccept(r.value, true, "confirmed", thresholdPct, direction) == Ok(Accepted) <==>
            && |s.pairs| >= MIN_VALID_FOR_SIGNIFICANCE
            && !s.partialPairing && PairQualityOf(s.pairs).value.quality == Good
            && UniformProvenance(OrderedMeasured(baseline) + OrderedMeasured(candidate))
            && Absolute(b) > settings.baseZeroTolerance
            && Exceeds(SignedEffect(b, c, direction), b, thresholdPct))
  {
    hide OrderedMeasured, SteadyScored, UniformProvenance, Prepare, PercentileCi, MeetsSchema, HighCv, Exploratory,
      CompleteProvenance, Mean, RelativePct, Exceeds, Absolute, PairEffects, AwareBlock, PairQualityOf,
      PairedScoreSamples;
    var x, y := OrderedMeasured(baseline), OrderedMeasured(candidate);
    var effect := SignedEffect(b, c, direction);
    SteadyPairedPrepared(baseline, candidate, b, c, direction, settings, s);
    SteadyEffects(baseline, candidate, b, c, direction, s);
    SteadyPairedInterval(sqrt, |s.pairs|, effect, settings, draws);
    SteadyMean(|x|, b);
    ComparisonSucceedsIff(sqrt, baseline, candidate, settings, draws);
    ProvenanceIsUniform(x + y);
    ThresholdIff(effect, b, settings.baseZeroTolerance, thresholdPct);
    if Exceeds(effect, b, thresholdPct) {
      PositiveEffect(effect, b, thresholdPct);
    }
  }

  /** `after` is `before` with one more valid run behind it that has no pair key. */
  ghost predicate AddsUnkeyedRun(
      before: seq<RunRecord>, after: seq<RunRecord>, extra: RunRecord, score: real, direction: Direction)
  {
    && OrderedMeasured(after) == OrderedMeasured(before) + [extra]
    && extra.validForScoring && extra.score == Some(score) && extra.pairKey == None && extra.direction == direction
  }

  lemma ExtraPrepared(
      before: seq<RunRecord>, after: seq<RunRecord>, extra: RunRecord, score: real, candidate: seq<RunRecord>,
      settings: Settings)
    requires Prepare(before, candidate, settings).Ok? && Prepare(before, candidate, settings).value.samples.Some?
    requires AddsUnkeyedRun(before, after, extra, score, Prepare(before, candidate, settings).value.direction)
    ensures SameKeyed(before, after) && Prepare(after, candidate, settings).Ok?
    ensures Prepare(after, candidate, settings).value.baselineScores ==
      Prepare(before, candidate, settings).value.baselineScores + [score]
  {
    var s, c := OrderedMeasured(before), OrderedMeasured(candidate);
    OrderingIsIdempotent(before);
    OrderingIsIdempotent(after);
    OrderingIsIdempotent(candidate);
    hide OrderedMeasured, PairQualityOf, InvalidSettings;
    assert (s + [extra])[..|s|] == s;
    assert KeyedOnly(s + [extra]) == KeyedOnly(s);
    UnkeyedRunsAreInvisible(s + [extra], s, c, c);
    hide PairedScoreSamples, KeyedOnly;
    ScoresSnoc(s, extra, score);
    hide ScoresOf;
    DirectionWithExtra(s, c, extra);
    hide ObjectiveDirection;
  }

  lemma DirectionWithExtra(s: seq<RunRecord>, c: seq<RunRecord>, extra: RunRecord)
    requires ObjectiveDirection(s + c) == Ok(extra.direction)
    ensures ObjectiveDirection(s + [extra] + c) == Ok(extra.direction)
  {
    var all, more := s + c, s + [extra] + c;
    forall i | 0 <= i < |more| ensures more[i].direction == extra.direction {
      assert i < |s| ==> more[i] == all[i];
      assert i > |s| ==> more[i] == all[i - 1];
    }
  }

  lemma ThresholdIff(x: real, mean: real, tolerance: real, thresholdPct: real)
    requires tolerance >= 0.0
    ensures RelativePct(x, mean, tolerance).Some? && RelativePct(x, mean, tolerance).value > thresholdPct
      <==> Absolute(mean) > tolerance && Exceeds(x, mean, thresholdPct)
  {
    if Absolute(mean) > tolerance {
      if Exceeds(x, mean, thresholdPct) {
        ExceedsIsRelative(x, mean, tolerance, thresholdPct);
      }
      if RelativePct(x, mean, tolerance).value > thresholdPct {
        RelativeExceeds(x, mean, tolerance, thresholdPct);
      }
    }
  }

  /** The gate of a paired comparison after the verdict: provenance, and the threshold over all baseline runs. */
  lemma PairedAcceptanceIff(sqrt: real -> real, p: Prepared, settings: Settings, draws: Draws, thresholdPct: real)
    requires p.Valid() && InvalidSettings(settings) == None && Uniform(draws) && thresholdPct >= 0.0
    requires Draft(sqrt, p, settings, draws).verdict == SignificantImprovement
    ensures
      var r := Draft(sqrt, p, settings, draws);
      CanAccept(r, true, "confirmed", thresholdPct, p.direction) == Ok(Accepted) <==>
        && r.provenanceComplete && Absolute(Mean(p.baselineScores)) > settings.baseZeroTolerance
        && Exceeds(r.ciLow, Mean(p.baselineScores), thresholdPct)
  {
    hide ComparisonCi, Mean, HighCv, Exploratory, CompleteProvenance, Exceeds, Absolute, RelativePct, VerdictFor, Conclusive;
    var ci := ComparisonCi(sqrt, p, settings, draws);
    VerdictIsDecisionGrade(sqrt, p, settings, ci);
    ThresholdIff(ci.ciLow, Mean(p.baselineScores), settings.baseZeroTolerance, thresholdPct);
  }

  /** The same runs can be paired, in the same order. */
  ghost predicate SameKeyed(a: seq<RunRecord>, b: seq<RunRecord>) {
    KeyedOnly(OrderedMeasured(a)) == KeyedOnly(OrderedMeasured(b))
  }

  /** Runs that can be paired are there in both versions of an arm. */
  lemma SharedRun(a: seq<RunRecord>, b: seq<RunRecord>) returns (i: nat, j: nat)
    requires RecordsByPairKey(a).Ok? && RecordsByPairKey(a).value != [] && KeyedOnly(a) == KeyedOnly(b)
    ensures i < |a| && j < |b| && a[i] == b[j]
  {
    PairKeysOfKeyed(a);
    PairKeysOfKeyed(b);
    KeyedRecordsAreExact(a);
    KeyedRecordsAreExact(b);
    var r := RecordsByPairKey(a).value[0];
    assert r in RecordsByPairKey(a).value;
    i :| i < |a| && a[i] == r;
    j :| j < |b| && b[j] == r;
  }

  lemma SharedDirection(b: seq<RunRecord>, b': seq<RunRecord>, c: seq<RunRecord>, c': seq<RunRecord>)
    requires KeyedOnly(b) == KeyedOnly(b') && ObjectiveDirection(b + c).Ok? && ObjectiveDirection(b' + c').Ok?
    requires PairedScoreSamples(b, c).Ok? && PairedScoreSamples(b, c).value.Some?
    ensures ObjectiveDirection(b + c) == ObjectiveDirection(b' + c')
  {
    var i, j := SharedRun(b, b');
    assert (b + c)[i] == b[i] && (b' + c')[j] == b'[j];
  }

  lemma PreparedDirection(baseline: seq<RunRecord>, candidate: seq<RunRecord>, settings: Settings)
    requires Prepare(baseline, candidate, settings).Ok?
    ensures ObjectiveDirection(OrderedMeasured(baseline) + OrderedMeasured(candidate)) ==
      Ok(Prepare(baseline, candidate, settings).value.direction)
  {
    hide OrderedMeasured, PairedScoreSamples, PairQualityOf, MeasuredValidScores, ObjectiveDirection, InvalidSettings;
  }

  lemma SamePairing(
      b: seq<RunRecord>, b': seq<RunRecord>, c: seq<RunRecord>, c': seq<RunRecord>, settings: Settings)
    requires Prepare(b, c, settings).Ok? && Prepare(b', c', settings).Ok? && Prepare(b, c, settings).value.samples.Some?
    requires SameKeyed(b, b') && SameKeyed(c, c')
    ensures
      var p, p' := Prepare(b, c, settings).value, Prepare(b', c', settings).value;
      p.samples == p'.samples && p.quality == p'.quality && p.direction == p'.direction
  {
    hide Prepare, OrderedMeasured, PairQualityOf, PairedScoreSamples, KeyedOnly, ObjectiveDirection;
    PreparedPairing(b, c, settings);
    PreparedPairing(b', c', settings);
    PreparedDirection(b, c, settings);
    PreparedDirection(b', c', settings);
    var x, x', y, y' := OrderedMeasured(b), OrderedMeasured(b'), OrderedMeasured(c), OrderedMeasured(c');
    UnkeyedRunsAreInvisible(x, x', y, y');
    SharedDirection(x, x', y, y');
  }

  /**
   Runs without a pair key change no pair, but those of the baseline change the mean that the
   threshold is measured by: with any such runs added or taken away anywhere in either arm, an accepted
   comparison stays accepted if and only if the provenance is complete and the interval exceeds the
   threshold of the new mean.
   */
  lemma UnkeyedRunsDecideIff(
      sqrt: real -> real, b: seq<RunRecord>, b': seq<RunRecord>, c: seq<RunRecord>, c': seq<RunRecord>,
      settings: Settings, draws: Draws, r: StatisticalResult, thresholdPct: real)
    requires IsSquareRoot(sqrt) && Uniform(draws) && thresholdPct >= 0.0
    requires CompareRunRecords(sqrt, b, c, settings, draws) == Ok(r) && r.paired
    requires CanAccept(r, true, "confirmed", thresholdPct, r.objectiveDirection) == Ok(Accepted)
    requires SameKeyed(b, b') && SameKeyed(c, c') && Prepare(b', c', settings).Ok?
    ensures
      var r', mean := CompareRunRecords(sqrt, b', c', settings, draws), Mean(Prepare(b', c', settings).value.baselineScores);
      && r'.Ok? && r'.value.ciLow == r.ciLow && r'.value.verdict == r.verdict
      && (CanAccept(r'.value, true, "confirmed", thresholdPct, r.objectiveDirection) == Ok(Accepted) <==>
            && UniformProvenance(OrderedMeasured(b') + OrderedMeasured(c'))
            && Absolute(mean) > settings.baseZeroTolerance && Exceeds(r.ciLow, mean, thresholdPct))
  {
    hide Prepare, PercentileCi, MeetsSchema, Mean, HighCv, Exploratory, CompleteProvenance, RelativePct, Exceeds,
      IsSquareRoot, Uniform, Conclusive, CanAccept, OrderedMeasured, UniformProvenance, SameKeyed, PairEffects,
      AwareBlock, Absolute;
    AcceptedIsInside(sqrt, b, c, settings, draws, r, thresholdPct);
    SamePairing(b, b', c, c', settings);
    ComparisonSucceedsIff(sqrt, b', c', settings, draws);
    var p' := Prepare(b', c', settings).value;
    PreparedPairing(b', c', settings);
    ProvenanceIsUniform(p'.baselineMeasured + p'.candidateMeasured);
    PairedAcceptanceIff(sqrt, p', settings, draws, thresholdPct);
  }

  lemma AcceptedIsInside(
      sqrt: real -> real, baseline: seq<RunRecord>, candidate: seq<RunRecord>, settings: Settings, draws: Draws,
      r: StatisticalResult, thresholdPct: real)
    requires IsSquareRoot(sqrt) && Uniform(draws)
    requires CompareRunRecords(sqrt, baseline, candidate, settings, draws) == Ok(r)
    requires CanAccept(r, true, "confirmed", thresholdPct, r.objectiveDirection) == Ok(Accepted)
    ensures r.verdict == SignificantImprovement && Prepare(baseline, candidate, settings).Ok?
    ensures
      var ci := ComparisonCi(sqrt, Prepare(baseline, candidate, settings).value, settings, draws);
      ci.ciLow <= ci.pointEstimate <= ci.ciHigh
  {
    hide Prepare, ComparisonCi, MeetsSchema, Mean, HighCv, Exploratory, CompleteProvenance, VerdictFor, EvidenceOf,
      Conclusive;
    ComparisonSucceedsIff(sqrt, baseline, candidate, settings, draws);
  }

  /** A run with neither start nor index, which is ordered behind all others. */
  function UnplacedRun(score: real, like: RunRecord): RunRecord {
    like.(
      measured := true, validForScoring := true, score := Some(score), runIndex := None, startedAt := None, pairKey := None)
  }

  lemma LastKey(r: RunRecord)
    ensures Sorting.LexLeq(CoarseKey(r), [2])
  {
    assert Sorting.LexLeq([2], [2]) by {
      assert [2][1..] == [];
    }
  }

  lemma UnplacedComesLast(records: seq<RunRecord>, extra: RunRecord)
    requires extra.measured && extra.startedAt == None && extra.runIndex == None
    ensures OrderedMeasured(OrderedMeasured(records) + [extra]) == OrderedMeasured(records) + [extra]
  {
    var s := OrderedMeasured(records);
    InOrderSorts(MeasuredOnly(records));
    MeasuredMembers(records);
    var more := s + [extra];
    forall i | 0 <= i < |more| ensures more[i].measured {
      assert i < |s| ==> s[i] in s;
    }
    forall i, j | 0 <= i < j < |more| ensures LexLeqOfRuns(more[i], more[j]) {
      if j < |s| {
        assert LexLeqOfRuns(s[i], s[j]);
      } else {
        LastKey(s[i]);
      }
    }
    hide OrderedMeasured, CoarseKey;
    BareRunsInOrder(more);
  }

  predicate StartsWith(s: seq<RunRecord>, direction: Direction) {
    s != [] && s[0].direction == direction
  }

  lemma OneMoreRun(baseline: seq<RunRecord>, score: real, direction: Direction)
    returns (after: seq<RunRecord>, extra: RunRecord)
    requires StartsWith(OrderedMeasured(baseline), direction)
    ensures AddsUnkeyedRun(baseline, after, extra, score, direction)
  {
    hide OrderedMeasured;
    var s := OrderedMeasured(baseline);
    extra := UnplacedRun(score, s[0]);
    UnplacedComesLast(baseline, extra);
    after := s + [extra];
  }

  /** A score that takes the mean as far up as wanted. */
  lemma MeanReaches(s: seq<real>, goal: real) returns (x: real)
    ensures Mean(s + [x]) == goal
  {
    var n := (|s| + 1) as real;
    x := goal * n - Sum(s);
    SumSnoc(s, x);
    assert Sum(s + [x]) == goal * n;
    assert goal * n / n == goal;
  }

  /**
   And so a single baseline run without a key can undo any acceptance with a positive threshold: the
   pairs, the interval and the verdict stay as they are.
   */
  lemma UnkeyedRunUndoesAcceptance(
      sqrt: real -> real, baseline: seq<RunRecord>, candidate: seq<RunRecord>, settings: Settings, draws: Draws,
      r: StatisticalResult, thresholdPct: real)
    returns (after: seq<RunRecord>, extra: RunRecord, score: real)
    requires IsSquareRoot(sqrt) && Uniform(draws) && thresholdPct > 0.0
    requires CompareRunRecords(sqrt, baseline, candidate, settings, draws) == Ok(r) && r.paired
    requires CanAccept(r, true, "confirmed", thresholdPct, r.objectiveDirection) == Ok(Accepted)
    ensures AddsUnkeyedRun(baseline, after, extra, score, r.objectiveDirection)
    ensures
      var r' := CompareRunRecords(sqrt, after, candidate, settings, draws);
      && r'.Ok? && r'.value.verdict == r.verdict && r'.value.ciLow == r.ciLow
      && CanAccept(r'.value, true, "confirmed", thresholdPct, r.objectiveDirection) != Ok(Accepted)
  {
    hide Prepare, Mean, CompareRunRecords, CanAccept, Uniform, IsSquareRoot, Exceeds, OrderedMeasured, AddsUnkeyedRun,
      Absolute;
    var p := FirstRun(sqrt, baseline, candidate, settings, draws, r);
    var goal := OutOfReach(r.ciLow, thresholdPct);
    score := MeanReaches(p.baselineScores, goal);
    after, extra := OneMoreRun(baseline, score, r.objectiveDirection);
    ExtraPrepared(baseline, after, extra, score, candidate, settings);
    UnkeyedRunsDecideIff(sqrt, baseline, after, candidate, candidate, settings, draws, r, thresholdPct);
  }

  lemma FirstRun(
      sqrt: real -> real, baseline: seq<RunRecord>, candidate: seq<RunRecord>, settings: Settings, draws: Draws,
      r: StatisticalResult)
    returns (p: Prepared)
    requires Uniform(draws) && CompareRunRecords(sqrt, baseline, candidate, settings, draws) == Ok(r)
    ensures Prepare(baseline, candidate, settings) == Ok(p)
    ensures p.direction == r.objectiveDirection && (p.samples.Some? <==> r.paired)
    ensures StartsWith(OrderedMeasured(baseline), r.objectiveDirection)
  {
    hide Prepare, OrderedMeasured, MeetsSchema, HighCv, Exploratory, CompleteProvenance, Mean, ComparisonCi, RelativePct,
      VerdictFor;
    p := Prepare(baseline, candidate, settings).value;
    FirstDirection(baseline, candidate, settings);
  }

  lemma FirstDirection(baseline: seq<RunRecord>, candidate: seq<RunRecord>, settings: Settings)
    requires Prepare(baseline, candidate, settings).Ok?
    ensures StartsWith(OrderedMeasured(baseline), Prepare(baseline, candidate, settings).value.direction)
  {
    hide OrderedMeasured, PairedScoreSamples, PairQualityOf, MeasuredValidScores;
    var s, c := OrderedMeasured(baseline), OrderedMeasured(candidate);
    assert (s + c)[0] == s[0];
  }

  /** A baseline mean whose threshold an effect does not exceed. */
  lemma OutOfReach(low: real, thresholdPct: real) returns (goal: real)
    requires thresholdPct > 0.0
    ensures !Exceeds(low, goal, thresholdPct)
  {
    goal := low * 100.0 / thresholdPct;
    assert goal * thresholdPct == low * 100.0;
    ProductNonNegative(thresholdPct, Absolute(goal) - goal);
    assert thresholdPct * (Absolute(goal) - goal) == thresholdPct * Absolute(goal) - thresholdPct * goal;
  }
}
