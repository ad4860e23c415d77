/** What the fields of a comparison's result say about the runs it was made from. */
module ResultFields {
  import opened Wrappers
  import opened RealSeq
  import opened StatsTypes
  import opened Autocorrelation
  import opened Quantile
  import opened Bootstrap
  import opened RecordOrder
  import opened Pairing
  import opened Comparison
  import opened Acceptance
  import opened Verdicts

  /** Number of measured runs, valid or not as asked for. */
  function CountRuns(records: seq<RunRecord>, valid: bool): nat {
    if records == [] then 0
    else
      var last := records[|records| - 1];
      CountRuns(records[..|records| - 1], valid) + if last.measured && last.validForScoring == valid then 1 else 0
  }

  ghost predicate Counted(r: RunRecord, valid: bool) {
    r.measured && r.validForScoring == valid
  }

  lemma {:induction false} CountRunsIsSum(a: seq<RunRecord>, r: RunRecord, valid: bool)
    ensures CountRuns([r] + a, valid) == CountRuns(a, valid) + if Counted(r, valid) then 1 else 0
  {
    if a == [] {
      assert [r] + a == [r] && [r][..0] == [];
    } else {
      CountRunsIsSum(a[..|a| - 1], r, valid);
      assert ([r] + a)[..|a|] == [r] + a[..|a| - 1];
    }
  }

  lemma {:induction false} CountRunsConcat(a: seq<RunRecord>, b: seq<RunRecord>, valid: bool)
    ensures CountRuns(a + b, valid) == CountRuns(a, valid) + CountRuns(b, valid)
  {
    if b == [] {
      assert a + b == a;
    } else {
      CountRunsConcat(a, b[..|b| - 1], valid);
      assert (a + b)[..|a + b| - 1] == a + b[..|b| - 1];
    }
  }

  /** Counting does not look at the order. */
  lemma {:induction false} CountRunsForgetsOrder(a: seq<RunRecord>, b: seq<RunRecord>, valid: bool)
    requires multiset(a) == multiset(b)
    ensures CountRuns(a, valid) == CountRuns(b, valid)
    decreases |a|
  {
    if a == [] {
      assert |b| == |multiset(b)| == 0;
    }
    hide CountRuns, Without;
    assert |a| == |multiset(a)| == |multiset(b)| == |b|;
    if a != [] {
      var k := SharedElement(a, b);
      CountRunsForgetsOrder(Without(a, 0), Without(b, k), valid);
      CountRunsWithout(a, 0, valid);
      CountRunsWithout(b, k, valid);
    }
  }

  lemma CountRunsWithout(s: seq<RunRecord>, k: nat, valid: bool)
    requires k < |s|
    ensures CountRuns(s, valid) == CountRuns(Without(s, k), valid) + if Counted(s[k], valid) then 1 else 0
  {
    hide CountRuns;
    assert s == s[..k] + ([s[k]] + s[k + 1..]);
    CountRunsConcat(s[..k], [s[k]] + s[k + 1..], valid);
    CountRunsIsSum(s[k + 1..], s[k], valid);
    CountRunsConcat(s[..k], s[k + 1..], valid);
  }

  lemma {:induction false} CountMeasured(records: seq<RunRecord>, valid: bool)
    ensures CountRuns(MeasuredOnly(records), valid) == CountRuns(records, valid)
  {
    if records != [] {
      var front, last := records[..|records| - 1], records[|records| - 1];
      CountMeasured(front, valid);
      assert (MeasuredOnly(front) + [last])[..|MeasuredOnly(front)|] == MeasuredOnly(front);
      assert MeasuredOnly(front) + [] == MeasuredOnly(front);
    }
  }

  lemma {:induction false} CountsOfMeasured(s: seq<RunRecord>)
    requires forall i :: 0 <= i < |s| ==> s[i].measured
    ensures CountRuns(s, true) + CountRuns(s, false) == |s|
    ensures ScoresOf(s).Ok? ==> |ScoresOf(s).value| == CountRuns(s, true)
  {
    if s != [] {
      CountsOfMeasured(s[..|s| - 1]);
    }
  }

  lemma ArmCounts(records: seq<RunRecord>)
    requires ScoresOf(OrderedMeasured(records)).Ok?
    ensures |OrderedMeasured(records)| == CountRuns(records, true) + CountRuns(records, false)
    ensures |ScoresOf(OrderedMeasured(records)).value| == CountRuns(records, true)
  {
    var s := OrderedMeasured(records);
    InOrderSorts(MeasuredOnly(records));
    MeasuredMembers(records);
    assert forall i :: 0 <= i < |s| ==> s[i] in s;
    CountMeasured(records, true);
    CountMeasured(records, false);
    CountRunsForgetsOrder(s, MeasuredOnly(records), true);
    CountRunsForgetsOrder(s, MeasuredOnly(records), false);
    CountsOfMeasured(s);
  }

  lemma PreparedScores(baseline: seq<RunRecord>, candidate: seq<RunRecord>, settings: Settings)
    requires Prepare(baseline, candidate, settings).Ok?
    ensures var p := Prepare(baseline, candidate, settings).value;
      && ScoresOf(OrderedMeasured(baseline)) == Ok(p.baselineScores)
      && ScoresOf(OrderedMeasured(candidate)) == Ok(p.candidateScores)
  {
    OrderingIsIdempotent(baseline);
    OrderingIsIdempotent(candidate);
    hide OrderedMeasured, PairedScoreSamples, PairQualityOf, ScoresOf, ObjectiveDirection, InvalidSettings;
  }

  lemma CommonKeysCount(baseline: seq<RunRecord>, candidate: seq<RunRecord>)
    requires PairedScoreSamples(baseline, candidate).Ok?
    ensures
      var b, c := RecordsByPairKey(baseline), RecordsByPairKey(candidate);
      var s := PairedScoreSamples(baseline, candidate).value;
      && b.Ok? && c.Ok?
      && (s.Some? <==> KeysOf(b.value) * KeysOf(c.value) != {})
      && (s.Some? ==> |s.value.pairs| == |KeysOf(b.value) * KeysOf(c.value)|)
  {
    var b, c := RecordsByPairKey(baseline).value, RecordsByPairKey(candidate).value;
    KeyedRecordsAreExact(baseline);
    MatchedKeysAreCommon(b, c);
    hide MatchedPairs, RecordsByPairKey, MatchedKeys;
    if KeysOf(b) * KeysOf(c) == {} {
      assert |KeysOf(b) * KeysOf(c)| == 0;
    } else {
      var k :| k in KeysOf(b) * KeysOf(c);
      assert |KeysOf(b) * KeysOf(c) - {k}| + 1 == |KeysOf(b) * KeysOf(c)|;
    }
  }

  /** All counts are those of the runs that were handed in; paired exactly if the arms share a key. */
  lemma CountsAreTrue(
      sqrt: real -> real, baseline: seq<RunRecord>, candidate: seq<RunRecord>, settings: Settings, draws: Draws,
      r: StatisticalResult)
    requires Uniform(draws) && CompareRunRecords(sqrt, baseline, candidate, settings, draws) == Ok(r)
    ensures
      && r.baselineNValid == CountRuns(baseline, true) && r.candidateNValid == CountRuns(candidate, true)
      && r.nInvalid == CountRuns(baseline, false) + CountRuns(candidate, false)
      && r.nMeasured == r.baselineNValid + r.candidateNValid + r.nInvalid
    ensures
      var b, c := RecordsByPairKey(OrderedMeasured(baseline)), RecordsByPairKey(OrderedMeasured(candidate));
      && b.Ok? && c.Ok?
      && var common := |KeysOf(b.value) * KeysOf(c.value)|;
        && (r.paired <==> common > 0) && r.pairCount == common
        && (r.paired ==> r.nValid == common)
        && (!r.paired ==> r.nValid == if r.candidateNValid < r.baselineNValid then r.candidateNValid else r.baselineNValid)
  {
    hide Prepare, ComparisonCi, MeetsSchema, Mean, HighCv, Exploratory, CompleteProvenance, RelativePct, VerdictFor,
      OrderedMeasured, CountRuns, PairedScoreSamples, RecordsByPairKey, KeysOf, ScoresOf;
    PreparedPairing(baseline, candidate, settings);
    PreparedScores(baseline, candidate, settings);
    ArmCounts(baseline);
    ArmCounts(candidate);
    CommonKeysCount(OrderedMeasured(baseline), OrderedMeasured(candidate));
  }

  function BaselineScores(pairs: seq<Pair>): (s: seq<real>)
    requires Scored(pairs)
    ensures |s| == |pairs|
  {
    seq(|pairs|, i requires 0 <= i < |pairs| => pairs[i].baseline.score.value)
  }

  function CandidateScores(pairs: seq<Pair>): (s: seq<real>)
    requires Scored(pairs)
    ensures |s| == |pairs|
  {
    seq(|pairs|, i requires 0 <= i < |pairs| => pairs[i].candidate.score.value)
  }

  lemma {:induction false} SumOfEffects(pairs: seq<Pair>, direction: Direction)
    requires Scored(pairs)
    ensures Sum(PairEffects(pairs, direction)) ==
      SignedEffect(Sum(BaselineScores(pairs)), Sum(CandidateScores(pairs)), direction)
  {
    if pairs != [] {
      var front, n := pairs[..|pairs| - 1], |pairs| - 1;
      SumOfEffects(front, direction);
      assert PairEffects(pairs, direction)[..n] == PairEffects(front, direction);
      assert BaselineScores(pairs)[..n] == BaselineScores(front);
      assert CandidateScores(pairs)[..n] == CandidateScores(front);
    }
  }

  /** The mean of the paired effects is the effect between the means of the paired runs. */
  lemma MeanOfEffects(pairs: seq<Pair>, direction: Direction)
    requires Scored(pairs) && pairs != []
    ensures Mean(PairEffects(pairs, direction)) ==
      SignedEffect(Mean(BaselineScores(pairs)), Mean(CandidateScores(pairs)), direction)
  {
    SumOfEffects(pairs, direction);
    hide Sum, BaselineScores, CandidateScores, PairEffects;
    var b, c, n := Sum(BaselineScores(pairs)), Sum(CandidateScores(pairs)), |pairs| as real;
    DifferenceOver(b, c, n);
    DifferenceOver(c, b, n);
  }

  lemma DifferenceOver(x: real, y: real, n: real)
    requires n > 0.0
    ensures (x - y) / n == x / n - y / n
  {
  }

  /** `pct` per cent of the absolute baseline mean is `x`. */
  ghost predicate IsPercentage(pct: Option<real>, x: real, mean: real, tolerance: real) {
    if Absolute(mean) <= tolerance then pct == None
    else pct.Some? && pct.value * Absolute(mean) == x * 100.0
  }

  lemma RelativeIsPercentage(x: real, mean: real, tolerance: real)
    requires tolerance >= 0.0
    ensures IsPercentage(RelativePct(x, mean, tolerance), x, mean, tolerance)
  {
    if Absolute(mean) > tolerance {
      var m := Absolute(mean);
      var ratio := x / m;
      assert ratio * m == x;
      assert ratio * 100.0 * m == ratio * m * 100.0;
    }
  }

  /** Point estimate and percentages in terms of plain means of runs. */
  lemma EstimateIsDifferenceOfMeans(
      sqrt: real -> real, baseline: seq<RunRecord>, candidate: seq<RunRecord>, settings: Settings, draws: Draws,
      r: StatisticalResult)
    requires Uniform(draws) && CompareRunRecords(sqrt, baseline, candidate, settings, draws) == Ok(r)
    ensures Prepare(baseline, candidate, settings).Ok? && InvalidSettings(settings) == None
    ensures
      var p := Prepare(baseline, candidate, settings).value;
      var mean, tolerance := Mean(p.baselineScores), settings.baseZeroTolerance;
      && r.objectiveDirection == p.direction && r.confidenceLevel == settings.confidence
      && r.pointEstimate == (
        match p.samples
        case Some(s) => SignedEffect(Mean(BaselineScores(s.pairs)), Mean(CandidateScores(s.pairs)), p.direction)
        case None => SignedEffect(mean, Mean(p.candidateScores), p.direction))
      && IsPercentage(r.relativeEffectPct, r.pointEstimate, mean, tolerance)
      && IsPercentage(r.relativeCiLowPct, r.ciLow, mean, tolerance)
      && IsPercentage(r.relativeCiHighPct, r.ciHigh, mean, tolerance)
  {
    hide Prepare, MeetsSchema, Mean, HighCv, Exploratory, CompleteProvenance, RelativePct, VerdictFor, Diagnose,
      SortedReplicates, CiLow, CiHigh, TwoSidedPValue, UnpairedReplicates, PairEffects, AwareBlock, CombineDiagnostics,
      IsPercentage, SignedEffect;
    var p := Prepare(baseline, candidate, settings).value;
    var ci := ComparisonCi(sqrt, p, settings, draws);
    var mean := Mean(p.baselineScores);
    if p.samples.Some? {
      MeanOfEffects(p.samples.value.pairs, p.direction);
    }
    RelativeIsPercentage(ci.pointEstimate, mean, settings.baseZeroTolerance);
    RelativeIsPercentage(ci.ciLow, mean, settings.baseZeroTolerance);
    RelativeIsPercentage(ci.ciHigh, mean, settings.baseZeroTolerance);
  }

  /** A coefficient of variation: the root of the mean square deviation over `n - 1`, in units of the mean. */
  ghost predicate IsVariation(scores: seq<real>, cv: real)
    requires scores != []
  {
    var d := Deviations(scores);
    var spread := cv * Absolute(Mean(scores));
    cv >= 0.0 && if |scores| == 1 then cv == 0.0 else spread * spread * (|scores| - 1) as real == Dot(d, d)
  }

  lemma VariationIsDefinedIff(sqrt: real -> real, scores: seq<real>)
    requires IsSquareRoot(sqrt) && scores != []
    ensures var cv := CoefficientOfVariation(sqrt, scores);
      if Absolute(Mean(scores)) <= CV_MEAN_TOLERANCE then cv == None else cv.Some? && IsVariation(scores, cv.value)
  {
    hide Mean, Deviations, Dot;
    var mean, d := Mean(scores), Deviations(scores);
    if Absolute(mean) > CV_MEAN_TOLERANCE {
      if |scores| == 1 {
        assert 0.0 / mean == 0.0;
      } else {
        DotNonNegative(d);
        RootOverMean(sqrt, Dot(d, d), (|scores| - 1) as real, mean);
      }
    }
  }

  lemma RootOverMean(sqrt: real -> real, squares: real, n: real, mean: real)
    requires IsSquareRoot(sqrt) && squares >= 0.0 && n > 0.0 && mean != 0.0
    ensures
      var spread := Absolute(sqrt(squares / n) / mean) * Absolute(mean);
      spread * spread * n == squares
  {
    var variance := squares / n;
    assert variance * n == squares;
    if variance < 0.0 {
      PositiveProduct(-variance, n, -squares);
    }
    var root := sqrt(variance);
    var ratio := root / mean;
    assert ratio * mean == root;
    var spread := Absolute(ratio) * Absolute(mean);
    assert spread == root || spread == -root;
    assert root * root == variance;
    assert spread * spread == variance;
  }

  /** Enough evidence for a hint in an unpaired comparison whose runs are autocorrelated. */
  ghost predicate Suggestive(sqrt: real -> real, p: Prepared, r: StatisticalResult) {
    var b, c := Diagnose(sqrt, p.baselineScores).ess, Diagnose(sqrt, p.candidateScores).ess;
    && !r.paired && r.autocorrelationDetected && r.baselineNValid >= 40 && r.candidateNValid >= 40
    && b.Some? && b.value >= 20.0 && c.Some? && c.value >= 20.0
    && r.relativeEffectPct.Some? && (r.relativeEffectPct.value >= 1.0 || r.relativeEffectPct.value <= -1.0)
  }

  lemma SignalIff(sqrt: real -> real, p: Prepared, settings: Settings, ci: BootstrapCi)
    requires p.Valid() && InvalidSettings(settings) == None
    ensures
      var r := Assemble(sqrt, p, settings, ci);
      var suggestive := Suggestive(sqrt, p, r);
      && (r.exploratorySignal == SuggestiveImprovement <==> suggestive && r.ciLow > 0.0)
      && (r.exploratorySignal == SuggestiveRegression <==> suggestive && !(r.ciLow > 0.0) && r.ciHigh < 0.0)
      && r.requiresConfirmation == (r.exploratorySignal != NoSignal)
  {
    hide Mean, HighCv, CompleteProvenance, RelativePct, Diagnose;
  }

  /** An exploratory signal is given exactly on such evidence, by the side of zero on which the interval lies. */
  lemma ExploratoryIff(
      sqrt: real -> real, baseline: seq<RunRecord>, candidate: seq<RunRecord>, settings: Settings, draws: Draws,
      r: StatisticalResult)
    requires IsSquareRoot(sqrt) && Uniform(draws)
    requires CompareRunRecords(sqrt, baseline, candidate, settings, draws) == Ok(r)
    ensures Prepare(baseline, candidate, settings).Ok?
    ensures
      var suggestive := Suggestive(sqrt, Prepare(baseline, candidate, settings).value, r);
      && (r.exploratorySignal == SuggestiveImprovement <==> suggestive && r.ciLow > 0.0)
      && (r.exploratorySignal == SuggestiveRegression <==> suggestive && r.ciHigh < 0.0)
      && r.requiresConfirmation == (r.exploratorySignal != NoSignal)
  {
    hide Prepare, ComparisonCi, MeetsSchema, Assemble, Decisive, Suggestive;
    VerdictIff(sqrt, baseline, candidate, settings, draws, r);
    var p := Prepare(baseline, candidate, settings).value;
    SignalIff(sqrt, p, settings, ComparisonCi(sqrt, p, settings, draws));
  }

  /** What the gate decides of a comparison, by the first requirement that the runs do not meet. */
  ghost function Deserved(
      p: Prepared, settings: Settings, r: StatisticalResult, familyScreened: bool, confirmationStatus: string,
      thresholdPct: real): Decision
    requires p.Valid()
  {
    var mean := Mean(p.baselineScores);
    if p.samples.Some? && p.quality.quality != Good then RejectedPairQuality
    else if !(Decisive(p, r) && r.ciLow > 0.0) then RejectedInsignificant
    else if !familyScreened then RejectedNotScreened
    else if confirmationStatus != "confirmed" then NeedsConfirmation
    else if !UniformProvenance(p.baselineMeasured + p.candidateMeasured) then RejectedIncompleteProvenance
    else if Absolute(mean) <= settings.baseZeroTolerance then RejectedRelativeThresholdUnavailable
    else if !Exceeds(r.ciLow, mean, thresholdPct) then RejectedPracticalThreshold
    else Accepted
  }

  /** The gate behind the verdict, in terms of provenance and threshold. */
  lemma GateBehindVerdict(
      sqrt: real -> real, p: Prepared, settings: Settings, ci: BootstrapCi, familyScreened: bool,
      confirmationStatus: string, thresholdPct: real)
    requires p.Valid() && InvalidSettings(settings) == None && thresholdPct >= 0.0
    ensures
      var r, mean := Assemble(sqrt, p, settings, ci), Mean(p.baselineScores);
      CanAccept(r, familyScreened, confirmationStatus, thresholdPct, p.direction) == Ok(
        if p.samples.Some? && p.quality.quality != Good then RejectedPairQuality
        else if r.verdict != SignificantImprovement then RejectedInsignificant
        else if !familyScreened then RejectedNotScreened
        else if confirmationStatus != "confirmed" then NeedsConfirmation
        else if !UniformProvenance(p.baselineMeasured + p.candidateMeasured) then RejectedIncompleteProvenance
        else if Absolute(mean) <= settings.baseZeroTolerance then RejectedRelativeThresholdUnavailable
        else if !Exceeds(r.ciLow, mean, thresholdPct) then RejectedPracticalThreshold
        else Accepted)
  {
    hide Mean, HighCv, Exploratory, CompleteProvenance, RelativePct, VerdictFor, Exceeds, UniformProvenance, Absolute,
      Conclusive, IsPercentage;
    VerdictIsDecisionGrade(sqrt, p, settings, ci);
    ProvenanceIsUniform(p.baselineMeasured + p.candidateMeasured);
    ThresholdIff(ci.ciLow, Mean(p.baselineScores), settings.baseZeroTolerance, thresholdPct);
    RelativeIsUndefinedIff(ci.ciLow, Mean(p.baselineScores), settings.baseZeroTolerance);
    assert |p.baselineMeasured| > 0;
  }

  lemma RelativeIsUndefinedIff(x: real, mean: real, tolerance: real)
    requires tolerance >= 0.0
    ensures RelativePct(x, mean, tolerance) == None <==> Absolute(mean) <= tolerance
  {}

  lemma DecisionIsDeserved(
      sqrt: real -> real, baseline: seq<RunRecord>, candidate: seq<RunRecord>, settings: Settings, draws: Draws,
      r: StatisticalResult, familyScreened: bool, confirmationStatus: string, thresholdPct: real)
    requires IsSquareRoot(sqrt) && Uniform(draws) && thresholdPct >= 0.0
    requires CompareRunRecords(sqrt, baseline, candidate, settings, draws) == Ok(r)
    ensures Prepare(baseline, candidate, settings).Ok?
    ensures CanAccept(r, familyScreened, confirmationStatus, thresholdPct, r.objectiveDirection) ==
      Ok(Deserved(Prepare(baseline, candidate, settings).value, settings, r, familyScreened, confirmationStatus, thresholdPct))
  {
    hide Prepare, ComparisonCi, MeetsSchema, Assemble, CanAccept, Exceeds, UniformProvenance, Absolute, Decisive, Mean;
    VerdictIff(sqrt, baseline, candidate, settings, draws, r);
    EstimateIsDifferenceOfMeans(sqrt, baseline, candidate, settings, draws, r);
    var p := Prepare(baseline, candidate, settings).value;
    GateBehindVerdict(sqrt, p, settings, ComparisonCi(sqrt, p, settings, draws), familyScreened, confirmationStatus,
      thresholdPct);
  }

  lemma LongEnoughForBlocks(n: nat, rho: Option<real>)
    ensures SelectBlockSize(n, rho).Some? <==> n > LOW_POWER_RUNS_MAX
  {
    hide CubeRootFrom;
    BlockSizeIsLeast(n, rho);
  }

  /** Blocks are resampled exactly where autocorrelation was detected in more than five values. */
  lemma ResamplingIff(
      sqrt: real -> real, baseline: seq<RunRecord>, candidate: seq<RunRecord>, settings: Settings, draws: Draws,
      r: StatisticalResult)
    requires Uniform(draws) && CompareRunRecords(sqrt, baseline, candidate, settings, draws) == Ok(r)
    ensures Prepare(baseline, candidate, settings).Ok?
    ensures
      var p := Prepare(baseline, candidate, settings).value;
      && (r.resampling == MovingBlock <==> r.blockSize.Some?)
      && (r.paired ==> (r.blockSize.Some? <==> r.autocorrelationDetected && r.nValid > 5)
                       && r.baselineBlockSize == r.candidateBlockSize == None)
      && (!r.paired ==>
            && (r.baselineBlockSize.Some? <==>
                  Diagnose(sqrt, p.baselineScores).autocorrelationDetected && r.baselineNValid > 5)
            && (r.candidateBlockSize.Some? <==>
                  Diagnose(sqrt, p.candidateScores).autocorrelationDetected && r.candidateNValid > 5)
            && (r.blockSize.Some? <==> r.baselineBlockSize.Some? || r.candidateBlockSize.Some?)
            && (r.baselineBlockSize.Some? ==> r.blockSize.value >= r.baselineBlockSize.value)
            && (r.candidateBlockSize.Some? ==> r.blockSize.value >= r.candidateBlockSize.value))
  {
    hide Prepare, MeetsSchema, Mean, HighCv, Exploratory, CompleteProvenance, RelativePct, VerdictFor, Diagnose,
      SortedReplicates, CiLow, CiHigh, TwoSidedPValue, UnpairedReplicates, PairEffects, SelectBlockSize, Uniform;
    forall n: nat, rho ensures SelectBlockSize(n, rho).Some? <==> n > LOW_POWER_RUNS_MAX {
      LongEnoughForBlocks(n, rho);
    }
  }

  lemma LargerProduct(x: real, y: real, k: real)
    requires x < y && k > 0.0
    ensures x * k < y * k
  {
    PositiveProduct(y - x, k, (y - x) * k);
    assert (y - x) * k == y * k - x * k;
  }

  lemma LargerSquare(x: real, y: real)
    requires 0.0 <= x < y
    ensures x * x < y * y
  {
    LargerProduct(x, y, y);
    ProductNonNegative(x, y - x);
    assert x * (y - x) == x * y - x * x;
  }

  lemma VariationIsUnique(scores: seq<real>, x: real, y: real)
    requires scores != [] && Mean(scores) != 0.0 && IsVariation(scores, x) && IsVariation(scores, y)
    ensures x >= y
  {
    hide Mean, Deviations, Dot;
    if x < y && |scores| > 1 {
      var m, k := Absolute(Mean(scores)), (|scores| - 1) as real;
      LargerProduct(x, y, m);
      ProductNonNegative(x, m);
      LargerSquare(x * m, y * m);
      LargerProduct((x * m) * (x * m), (y * m) * (y * m), k);
    }
  }

  /** A mean away from zero and a coefficient of variation above the threshold. */
  ghost predicate Noisy(scores: seq<real>, threshold: real)
    requires scores != []
  {
    Absolute(Mean(scores)) > 0.000000000001 && exists cv :: cv > threshold && IsVariation(scores, cv)
  }

  lemma NoisyIff(sqrt: real -> real, scores: seq<real>, threshold: real)
    requires IsSquareRoot(sqrt) && scores != []
    ensures var cv := CoefficientOfVariation(sqrt, scores);
      Noisy(scores, threshold) <==> cv.Some? && cv.value > threshold
  {
    VariationIsDefinedIff(sqrt, scores);
    hide IsVariation, CoefficientOfVariation, Mean;
    if Noisy(scores, threshold) {
      var cv :| cv > threshold && IsVariation(scores, cv);
      VariationIsUnique(scores, CoefficientOfVariation(sqrt, scores).value, cv);
    }
  }

  /** The flags beside the verdict, in terms of the other fields and of the runs. */
  lemma FlagsAreTrue(
      sqrt: real -> real, baseline: seq<RunRecord>, candidate: seq<RunRecord>, settings: Settings, draws: Draws,
      r: StatisticalResult)
    requires IsSquareRoot(sqrt) && Uniform(draws)
    requires CompareRunRecords(sqrt, baseline, candidate, settings, draws) == Ok(r)
    ensures Prepare(baseline, candidate, settings).Ok?
    ensures
      var p := Prepare(baseline, candidate, settings).value;
      && r.iidAssumptionValid == !r.autocorrelationDetected && !r.adjustedForMultipleTesting
      && (r.significantSingleComparison <==> r.verdict == SignificantImprovement || r.verdict == SignificantRegression)
      && r.pairQuality == p.quality.quality
      && (r.paired ==> (r.autocorrelationDetected <==> r.lag1.Some? && r.lag1.value > 0.3))
      && (!r.paired ==>
            && (r.autocorrelationDetected <==>
                  || Diagnose(sqrt, p.baselineScores).autocorrelationDetected
                  || Diagnose(sqrt, p.candidateScores).autocorrelationDetected)
            && (r.lag1 == Diagnose(sqrt, p.baselineScores).lag1 || r.lag1 == Diagnose(sqrt, p.candidateScores).lag1))
      && (r.recommendMoreRuns <==>
            || r.lowPower
            || Noisy(p.baselineScores, settings.highCvThreshold) || Noisy(p.candidateScores, settings.highCvThreshold))
  {
    hide Prepare, MeetsSchema, Mean, Exploratory, CompleteProvenance, RelativePct, VerdictFor, Diagnose, Noisy,
      CoefficientOfVariation, SortedReplicates, CiLow, CiHigh, TwoSidedPValue, UnpairedReplicates, PairEffects,
      AwareBlock, Uniform, IsSquareRoot;
    var p := Prepare(baseline, candidate, settings).value;
    NoisyIff(sqrt, p.baselineScores, settings.highCvThreshold);
    NoisyIff(sqrt, p.candidateScores, settings.highCvThreshold);
    if p.samples.Some? {
      DiagnosticsAreSound(sqrt, PairEffects(p.samples.value.pairs, p.direction));
    }
  }
}
