/**
 `compare_run_records`: ordering, pairing, bootstrap, verdict and the validated result.  The draft
 result is proved to meet its schema in every respect but one, and that one is characterised.
 */
module Comparison {
  import opened Wrappers
  import opened RealSeq
  import opened StatsTypes
  import opened Autocorrelation
  import opened Quantile
  import opened Bootstrap
  import opened RecordOrder
  import opened Pairing
  import Sorting

  const ESS_MIN := 3.0
  const LOW_POWER_ESS_MIN := 5.0
  const MIN_VALID_FOR_SIGNIFICANCE := 10
  const AUTOCORRELATED_MIN_VALID := 60
  const CV_MEAN_TOLERANCE := 0.000000000001
  const EXPLORATORY_MIN_N := 40
  const EXPLORATORY_MIN_ESS := 20.0
  const EXPLORATORY_MIN_EFFECT_PCT := 1.0

  datatype Settings = Settings(confidence: real, samples: int, baseZeroTolerance: real, highCvThreshold: real)

  function InvalidSettings(s: Settings): Option<StatsError> {
    if s.confidence <= 0.0 || s.confidence >= 1.0 then Some(BadConfidenceLevel)
    else if s.samples <= 0 then Some(BadBootstrapSamples)
    else if s.baseZeroTolerance < 0.0 || s.highCvThreshold < 0.0 then Some(BadTolerance)
    else None
  }

  function ScoresOf(records: seq<RunRecord>): (r: Result<seq<real>, StatsError>)
    ensures r.Ok? ==> |r.value| <= |records|
  {
    if records == [] then Ok([])
    else
      var front :- ScoresOf(records[..|records| - 1]);
      var last := records[|records| - 1];
      if !last.validForScoring then Ok(front)
      else if last.score == None then Err(MissingScore)
      else Ok(front + [last.score.value])
  }

  /** `measured_valid_scores`. */
  function MeasuredValidScores(records: seq<RunRecord>): Result<seq<real>, StatsError> {
    ScoresOf(OrderedMeasured(records))
  }

  /** `_objective_direction`. */
  function ObjectiveDirection(records: seq<RunRecord>): Result<Direction, StatsError> {
    if records != [] && forall i :: 0 <= i < |records| ==> records[i].direction == records[0].direction then
      Ok(records[0].direction)
    else Err(MixedObjectiveDirections)
  }

  ghost predicate Scored(pairs: seq<Pair>) {
    forall i :: 0 <= i < |pairs| ==> pairs[i].baseline.score.Some? && pairs[i].candidate.score.Some?
  }

  function PairEffects(pairs: seq<Pair>, direction: Direction): (e: seq<real>)
    requires Scored(pairs)
    ensures |e| == |pairs|
  {
    seq(|pairs|, i requires 0 <= i < |pairs| =>
      SignedEffect(pairs[i].baseline.score.value, pairs[i].candidate.score.value, direction))
  }

  /** What the statistics are computed from, once the inputs have passed every check. */
  datatype Prepared = Prepared(
    baselineMeasured: seq<RunRecord>,
    candidateMeasured: seq<RunRecord>,
    baselineScores: seq<real>,
    candidateScores: seq<real>,
    direction: Direction,
    samples: Option<PairedSamples>,
    quality: PairDiagnostics)
  {
    ghost predicate Valid() {
      && 0 < |baselineScores| <= |baselineMeasured|
      && 0 < |candidateScores| <= |candidateMeasured|
      && (samples.Some? ==>
        && Scored(samples.value.pairs)
        && 0 < |samples.value.pairs| <= |baselineScores|
        && |samples.value.pairs| <= |candidateScores|)
    }
  }

  /** Every valid run carries a pair key. */
  ghost predicate AllKeyed(records: seq<RunRecord>) {
    forall r :: r in records && r.validForScoring ==> r.pairKey.Some?
  }

  lemma {:induction false} KeyedAreFewer(records: seq<RunRecord>)
    requires RecordsByPairKey(records).Ok? && ScoresOf(records).Ok?
    ensures |RecordsByPairKey(records).value| <= |ScoresOf(records).value|
    ensures |RecordsByPairKey(records).value| == |ScoresOf(records).value| <==> AllKeyed(records)
  {
    if records != [] {
      var front, last := records[..|records| - 1], records[|records| - 1];
      KeyedAreFewer(front);
      assert forall r :: r in records <==> r in front || r == last;
    }
  }

  lemma {:induction false} MatchesAreFewer(b: seq<RunRecord>, c: seq<RunRecord>)
    requires DistinctKeys(b) && DistinctKeys(c)
    ensures |MatchedPairs(b, c)| <= |b| && |MatchedPairs(b, c)| <= |c|
  {
    MatchedKeysAreCommon(b, c);
    DistinctKeysCount(b);
    DistinctKeysCount(c);
    var common := KeysOf(b) * KeysOf(c);
    hide MatchedPairs, KeysOf, DistinctKeys;
    assert KeysOf(b) == common + (KeysOf(b) - common);
    assert KeysOf(c) == common + (KeysOf(c) - common);
  }

  lemma PairsAreScored(b: seq<RunRecord>, c: seq<RunRecord>)
    requires ScoresOf(b).Ok? && ScoresOf(c).Ok?
    requires PairedScoreSamples(b, c).Ok? && PairedScoreSamples(b, c).value.Some?
    ensures
      var pairs := PairedScoreSamples(b, c).value.value.pairs;
      Scored(pairs) && 0 < |pairs| <= |ScoresOf(b).value| && |pairs| <= |ScoresOf(c).value|
  {
    var bk, ck := RecordsByPairKey(b).value, RecordsByPairKey(c).value;
    KeyedRecordsAreExact(b);
    KeyedRecordsAreExact(c);
    PairsMatch(bk, ck);
    MatchesAreFewer(bk, ck);
    KeyedAreFewer(b);
    KeyedAreFewer(c);
    var pairs := MatchedPairs(bk, ck);
    forall i | 0 <= i < |pairs| ensures pairs[i].baseline.score.Some? && pairs[i].candidate.score.Some? {
      assert pairs[i] in pairs;
    }
  }

  /** The pairs cover every valid run of both arms if and only if the pairing is full and every valid run has a key. */
  lemma PairingCoversEveryRunIff(b: seq<RunRecord>, c: seq<RunRecord>)
    requires ScoresOf(b).Ok? && ScoresOf(c).Ok?
    requires PairedScoreSamples(b, c).Ok? && PairedScoreSamples(b, c).value.Some?
    ensures
      var s := PairedScoreSamples(b, c).value.value;
      |s.pairs| == |ScoresOf(b).value| == |ScoresOf(c).value| <==> !s.partialPairing && AllKeyed(b) && AllKeyed(c)
  {
    hide ScoresOf, RecordsByPairKey, MatchedPairs, AllKeyed;
    KeyedAreFewer(b);
    KeyedAreFewer(c);
    KeyedRecordsAreExact(b);
    KeyedRecordsAreExact(c);
    MatchesAreFewer(RecordsByPairKey(b).value, RecordsByPairKey(c).value);
  }

  /** A valid run of the example below, with or without a pair key. */
  function PairRun(score: real, key: Option<string>): RunRecord {
    BareRun(0, score).(pairKey := key)
  }

  lemma ScoresSnoc(s: seq<RunRecord>, r: RunRecord, score: real)
    requires ScoresOf(s).Ok? && r.validForScoring && r.score == Some(score)
    ensures ScoresOf(s + [r]) == Ok(ScoresOf(s).value + [score])
  {
    assert (s + [r])[..|s|] == s;
  }

  lemma OnePair(x: RunRecord, z: RunRecord)
    requires x.pairKey == z.pairKey
    ensures MatchedPairs([x], [z]) == [Pair(x, z)]
  {
    assert [x][..0] == [] && MatchedPairs([], [z]) == [];
  }

  /** One pair and one valid run without a key: the pairing counts as full and leaves the run out. */
  lemma UnkeyedRunIsLeftOut()
    ensures
      var b, c := [PairRun(1.0, Some("k")), PairRun(9.0, None)], [PairRun(2.0, Some("k"))];
      && ScoresOf(b) == Ok([1.0, 9.0]) && ScoresOf(c) == Ok([2.0])
      && PairedScoreSamples(b, c) == Ok(Some(PairedSamples([Pair(b[0], c[0])], false)))
  {
    var x, y, z := PairRun(1.0, Some("k")), PairRun(9.0, None), PairRun(2.0, Some("k"));
    assert ScoresOf([]) == Ok([]) && RecordsByPairKey([]) == Ok([]);
    hide ScoresOf, RecordsByPairKey, MatchedPairs;
    assert [] + [x] == [x] && [x] + [y] == [x, y] && [] + [z] == [z];
    assert [] + [1.0] == [1.0] && [1.0] + [9.0] == [1.0, 9.0] && [] + [2.0] == [2.0];
    ScoresSnoc([], x, 1.0);
    ScoresSnoc([x], y, 9.0);
    ScoresSnoc([], z, 2.0);
    PairKeysSnoc([], x);
    PairKeysSnoc([x], y);
    PairKeysSnoc([], z);
    OnePair(x, z);
  }

  /** Every check that can raise before the statistics begin, in the order of the code. */
  function Prepare(baseline: seq<RunRecord>, candidate: seq<RunRecord>, settings: Settings)
    : (r: Result<Prepared, StatsError>)
    ensures r.Ok? ==> r.value.Valid() && InvalidSettings(settings) == None
  {
    var b, c := OrderedMeasured(baseline), OrderedMeasured(candidate);
    OrderingIsIdempotent(baseline);
    OrderingIsIdempotent(candidate);
    var baselineScores :- MeasuredValidScores(b);
    var candidateScores :- MeasuredValidScores(c);
    if baselineScores == [] || candidateScores == [] then Err(EmptyScores)
    else if InvalidSettings(settings).Some? then Err(InvalidSettings(settings).value)
    else
      var direction :- ObjectiveDirection(b + c);
      var samples :- PairedScoreSamples(b, c);
      if samples == None then
        Ok(Prepared(b, c, baselineScores, candidateScores, direction, None, PairDiagnostics(Unknown, false, false)))
      else
        PairsAreScored(b, c);
        var quality :- PairQualityOf(samples.value.pairs);
        Ok(Prepared(b, c, baselineScores, candidateScores, direction, samples, quality))
  }

  /** The interval of the comparison: paired differences when there are pairs. */
  function ComparisonCi(sqrt: real -> real, p: Prepared, settings: Settings, draws: Draws): BootstrapCi
    requires p.Valid() && InvalidSettings(settings) == None && Uniform(draws)
  {
    match p.samples
    case Some(s) =>
      var effects := PairEffects(s.pairs, p.direction);
      PercentileCi(sqrt, effects, settings.confidence, settings.samples, draws, AwareBlock(sqrt, effects))
    case None =>
      UnpairedCi(sqrt, p.baselineScores, p.candidateScores, p.direction,
        settings.confidence, settings.samples, draws)
  }

  function ComparisonN(p: Prepared): nat {
    match p.samples
    case Some(s) => |s.pairs|
    case None => if |p.candidateScores| < |p.baselineScores| then |p.candidateScores| else |p.baselineScores|
  }

  /** What the verdict gates look at. */
  datatype Evidence = Evidence(
    nValid: nat,
    ess: Option<real>,
    essPreliminary: bool,
    autocorrelationDetected: bool,
    paired: bool,
    pairQuality: PairQuality,
    unpairedAutocorrelation: bool,
    partialPairing: bool)

  /** Enough evidence to say anything at all. */
  predicate Conclusive(e: Evidence) {
    && e.nValid >= MIN_VALID_FOR_SIGNIFICANCE
    && e.ess.Some? && e.ess.value >= LOW_POWER_ESS_MIN && !e.essPreliminary
    && !e.unpairedAutocorrelation
    && (e.paired ==> e.pairQuality == Good && !e.partialPairing)
    && (e.paired && e.autocorrelationDetected ==> e.nValid >= AUTOCORRELATED_MIN_VALID)
  }

  function VerdictFor(e: Evidence, ciLow: real, ciHigh: real): Verdict {
    if !Conclusive(e) then Inconclusive
    else if ciLow > 0.0 then SignificantImprovement
    else if ciHigh < 0.0 then SignificantRegression
    else NoDifference
  }

  /** `_statistical_verdict`: each gate may set one of the two flags. */
  method StatisticalVerdict(e: Evidence, ciLow: real, ciHigh: real, highCv: bool)
    returns (verdict: Verdict, insufficientPower: bool, recommendMoreRuns: bool)
    ensures verdict == VerdictFor(e, ciLow, ciHigh)
    ensures insufficientPower == !Conclusive(e)
    ensures recommendMoreRuns == (!Conclusive(e) || highCv)
  {
    var hardInconclusive, lowPower := false, false;
    if e.nValid < LOW_POWER_RUNS_MAX {
      hardInconclusive := true;
    } else if e.nValid < MIN_VALID_FOR_SIGNIFICANCE {
      lowPower := true;
    }
    if e.ess == None {
      hardInconclusive := true;
    } else if e.ess.value < ESS_MIN {
      hardInconclusive := true;
    } else if e.ess.value < LOW_POWER_ESS_MIN {
      lowPower := true;
    }
    if e.unpairedAutocorrelation {
      hardInconclusive := true;
    }
    if e.paired && e.pairQuality != Good {
      lowPower := true;
    }
    if e.paired && e.partialPairing {
      lowPower := true;
    }
    if e.paired && e.autocorrelationDetected && e.nValid < AUTOCORRELATED_MIN_VALID {
      lowPower := true;
    }
    if e.essPreliminary {
      lowPower := true;
    }
    insufficientPower := hardInconclusive || lowPower;
    if insufficientPower {
      verdict := Inconclusive;
    } else if ciLow > 0.0 {
      verdict := SignificantImprovement;
    } else if ciHigh < 0.0 {
      verdict := SignificantRegression;
    } else {
      verdict := NoDifference;
    }
    recommendMoreRuns := insufficientPower || highCv;
  }

  function EvidenceOf(p: Prepared, d: Diagnostics): Evidence {
    Evidence(ComparisonN(p), d.ess, d.essPreliminary, d.autocorrelationDetected,
      p.samples.Some?, p.quality.quality,
      p.samples == None && d.autocorrelationDetected,
      p.samples.Some? && p.samples.value.partialPairing)
  }

  /** The coefficient of variation of one arm, undefined around a zero mean. */
  function CoefficientOfVariation(sqrt: real -> real, scores: seq<real>): Option<real>
    requires scores != []
  {
    var mean, d := Mean(scores), Deviations(scores);
    var stddev := if |scores| <= 1 then 0.0 else sqrt(Dot(d, d) / (|scores| - 1) as real);
    if Absolute(mean) <= CV_MEAN_TOLERANCE then None else Some(Absolute(stddev / mean))
  }

  predicate HighCv(sqrt: real -> real, p: Prepared, threshold: real)
    requires p.baselineScores != [] && p.candidateScores != []
  {
    var b, c := CoefficientOfVariation(sqrt, p.baselineScores), CoefficientOfVariation(sqrt, p.candidateScores);
    (b.Some? && b.value > threshold) || (c.Some? && c.value > threshold)
  }

  /** Per cent of the absolute baseline mean, undefined around zero. */
  function RelativePct(x: real, baselineMean: real, tolerance: real): Option<real>
    requires tolerance >= 0.0
  {
    if Absolute(baselineMean) <= tolerance then None
    else Some(x / Absolute(baselineMean) * 100.0)
  }

  /** `_exploratory_signal`; every signal but "none" requires confirmation. */
  function Exploratory(
      sqrt: real -> real, p: Prepared, ciLow: real, ciHigh: real, verdict: Verdict,
      unpairedAutocorrelation: bool, relativeEffectPct: Option<real>): ExploratorySignal
  {
    var b, c := Diagnose(sqrt, p.baselineScores).ess, Diagnose(sqrt, p.candidateScores).ess;
    if p.samples.Some? || !unpairedAutocorrelation || verdict != Inconclusive then NoSignal
    else if |p.baselineScores| < EXPLORATORY_MIN_N || |p.candidateScores| < EXPLORATORY_MIN_N then NoSignal
    else if b == None || c == None || b.value < EXPLORATORY_MIN_ESS || c.value < EXPLORATORY_MIN_ESS then NoSignal
    else if relativeEffectPct == None || Absolute(relativeEffectPct.value) < EXPLORATORY_MIN_EFFECT_PCT then NoSignal
    else if ciLow > 0.0 then SuggestiveImprovement
    else if ciHigh < 0.0 then SuggestiveRegression
    else NoSignal
  }

  predicate SharedValue(values: seq<Option<string>>) {
    values != [] && values[0].Some? && forall i :: 0 <= i < |values| ==> values[i] == values[0]
  }

  /** `_records_have_complete_provenance`. */
  predicate CompleteProvenance(records: seq<RunRecord>) {
    var n := |records|;
    && SharedValue(seq(n, i requires 0 <= i < n => records[i].measurementPlanId))
    && SharedValue(seq(n, i requires 0 <= i < n => records[i].sourceCommit))
    && SharedValue(seq(n, i requires 0 <= i < n => records[i].benchmarkId))
    && SharedValue(seq(n, i requires 0 <= i < n => records[i].objectiveId))
  }

  /** The result's fields before the schema looks at them. */
  function Draft(sqrt: real -> real, p: Prepared, settings: Settings, draws: Draws): StatisticalResult
    requires p.Valid() && InvalidSettings(settings) == None && Uniform(draws)
  {
    Assemble(sqrt, p, settings, ComparisonCi(sqrt, p, settings, draws))
  }

  function Assemble(sqrt: real -> real, p: Prepared, settings: Settings, ci: BootstrapCi): StatisticalResult
    requires p.Valid() && InvalidSettings(settings) == None
  {
    var d := ci.diagnostics;
    var evidence := EvidenceOf(p, d);
    var verdict := VerdictFor(evidence, ci.ciLow, ci.ciHigh);
    var mean := Mean(p.baselineScores);
    var effectPct := RelativePct(ci.pointEstimate, mean, settings.baseZeroTolerance);
    var signal := Exploratory(sqrt, p, ci.ciLow, ci.ciHigh, verdict, evidence.unpairedAutocorrelation, effectPct);
    StatisticalResult(
      objectiveDirection := p.direction,
      pointEstimate := ci.pointEstimate,
      relativeEffectPct := effectPct,
      relativeCiLowPct := RelativePct(ci.ciLow, mean, settings.baseZeroTolerance),
      relativeCiHighPct := RelativePct(ci.ciHigh, mean, settings.baseZeroTolerance),
      ciLow := ci.ciLow,
      ciHigh := ci.ciHigh,
      confidenceLevel := ci.confidenceLevel,
      resampling := ci.resampling,
      pValue := Some(ci.pValue),
      verdict := verdict,
      significantSingleComparison := verdict == SignificantImprovement || verdict == SignificantRegression,
      adjustedForMultipleTesting := false,
      nMeasured := |p.baselineMeasured| + |p.candidateMeasured|,
      nValid := ComparisonN(p),
      nInvalid := |p.baselineMeasured| - |p.baselineScores| + (|p.candidateMeasured| - |p.candidateScores|),
      baselineNValid := |p.baselineScores|,
      candidateNValid := |p.candidateScores|,
      ess := d.ess,
      essPreliminary := d.essPreliminary,
      lag1 := d.lag1,
      autocorrelationDetected := d.autocorrelationDetected,
      iidAssumptionValid := !d.autocorrelationDetected,
      lowPower := !Conclusive(evidence),
      recommendMoreRuns := !Conclusive(evidence) || HighCv(sqrt, p, settings.highCvThreshold),
      paired := p.samples.Some?,
      pairCount := if p.samples.Some? then ComparisonN(p) else 0,
      pairQuality := p.quality.quality,
      blockSize := ci.blockSize,
      baselineBlockSize := ci.baselineBlockSize,
      candidateBlockSize := ci.candidateBlockSize,
      exploratorySignal := signal,
      requiresConfirmation := signal != NoSignal,
      provenanceComplete := CompleteProvenance(p.baselineMeasured + p.candidateMeasured))
  }

  predicate HasSignificantVerdict(r: StatisticalResult) {
    r.verdict == SignificantImprovement || r.verdict == SignificantRegression
  }

  /** `_statistical_result_is_decision_grade_predicate`. */
  predicate DecisionGrade(r: StatisticalResult) {
    HasSignificantVerdict(r) && if r.paired then r.pairQuality == Good else !r.autocorrelationDetected
  }

  predicate FieldsInRange(r: StatisticalResult) {
    && 0.0 < r.confidenceLevel < 1.0
    && (r.pValue.Some? ==> 0.0 <= r.pValue.value <= 1.0)
    && (r.ess.Some? ==> r.ess.value >= 0.0)
    && (r.lag1.Some? ==> -1.0 <= r.lag1.value <= 1.0)
    && (r.blockSize.Some? ==> r.blockSize.value >= 2)
    && (r.baselineBlockSize.Some? ==> r.baselineBlockSize.value >= 2)
    && (r.candidateBlockSize.Some? ==> r.candidateBlockSize.value >= 2)
  }

  predicate RelativeConsistent(r: StatisticalResult) {
    r.relativeCiLowPct.Some? || r.relativeCiHighPct.Some? ==>
      && r.relativeEffectPct.Some? && r.relativeCiLowPct.Some? && r.relativeCiHighPct.Some?
      && r.relativeCiLowPct.value <= r.relativeEffectPct.value <= r.relativeCiHighPct.value
  }

  predicate CountsConsistent(r: StatisticalResult) {
    && r.nValid + r.nInvalid <= r.nMeasured
    && (r.ess.Some? ==> r.ess.value <= r.nValid as real)
    && (r.paired ==> r.pairCount != 0)
  }

  predicate SignificanceConsistent(r: StatisticalResult) {
    && r.significantSingleComparison == HasSignificantVerdict(r)
    && !r.adjustedForMultipleTesting
    && (r.exploratorySignal != NoSignal ==> r.verdict == Inconclusive && r.requiresConfirmation)
    && (HasSignificantVerdict(r) ==> DecisionGrade(r))
  }

  /** The field constraints and the model validator of `StatisticalResult`. */
  predicate MeetsSchema(r: StatisticalResult) {
    && FieldsInRange(r) && r.ciLow <= r.ciHigh && RelativeConsistent(r)
    && CountsConsistent(r) && SignificanceConsistent(r)
  }

  /** `compare_run_records`. */
  function CompareRunRecords(
      sqrt: real -> real, baseline: seq<RunRecord>, candidate: seq<RunRecord>, settings: Settings, draws: Draws)
    : Result<StatisticalResult, StatsError>
    requires Uniform(draws)
  {
    var p :- Prepare(baseline, candidate, settings);
    var r := Draft(sqrt, p, settings, draws);
    if MeetsSchema(r) then Ok(r) else Err(InconsistentResult)
  }

  /** The same comparison with the loops spelled out. */
  method Compare(
      sqrt: real -> real, baseline: seq<RunRecord>, candidate: seq<RunRecord>, settings: Settings, draws: Draws)
    returns (r: Result<StatisticalResult, StatsError>)
    requires Uniform(draws)
    ensures r == CompareRunRecords(sqrt, baseline, candidate, settings, draws)
  {
    hide Prepare, MeetsSchema, PercentileCi, UnpairedCi, AwareBlock, HighCv, Exploratory, RelativePct, CompleteProvenance;
    var p :- Prepare(baseline, candidate, settings);
    var ci: BootstrapCi;
    if p.samples.Some? {
      var effects := PairEffects(p.samples.value.pairs, p.direction);
      var aware := AutocorrelationAwareBootstrapCi(sqrt, effects, settings.confidence, settings.samples, draws);
      ci := aware.value;
    } else {
      ci := UnpairedMeanDifferenceBootstrapCi(
        sqrt, p.baselineScores, p.candidateScores, p.direction, settings.confidence, settings.samples, draws);
    }
    var verdict, lowPower, recommendMoreRuns := StatisticalVerdict(
      EvidenceOf(p, ci.diagnostics), ci.ciLow, ci.ciHigh, HighCv(sqrt, p, settings.highCvThreshold));
    var result := Assemble(sqrt, p, settings, ci).(
      verdict := verdict, lowPower := lowPower, recommendMoreRuns := recommendMoreRuns);
    if MeetsSchema(result) {
      return Ok(result);
    }
    return Err(InconsistentResult);
  }

  /** What every interval brings with it, paired or not. */
  ghost predicate SoundCi(ci: BootstrapCi, n: nat) {
    && ci.ciLow <= ci.ciHigh
    && 0.0 < ci.confidenceLevel < 1.0
    && 0.0 < ci.pValue <= 1.0
    && SoundEstimates(ci.diagnostics, n)
    && (ci.blockSize.Some? ==> ci.blockSize.value >= 2)
    && (ci.baselineBlockSize.Some? ==> ci.baselineBlockSize.value >= 2)
    && (ci.candidateBlockSize.Some? ==> ci.candidateBlockSize.value >= 2)
  }

  ghost predicate SoundEstimates(d: Diagnostics, n: nat) {
    && d.ess.Some? && 0.0 <= d.ess.value <= n as real
    && (d.lag1.Some? ==> -1.0 <= d.lag1.value <= 1.0)
  }

  lemma PairedCiIsSound(sqrt: real -> real, effects: seq<real>, settings: Settings, draws: Draws)
    requires IsSquareRoot(sqrt) && Uniform(draws) && effects != [] && InvalidSettings(settings) == None
    ensures SoundCi(
      PercentileCi(sqrt, effects, settings.confidence, settings.samples, draws, AwareBlock(sqrt, effects)), |effects|)
  {
    hide Diagnose, CiLow, CiHigh, TwoSidedPValue, Mean, SortedReplicates, AwareBlock, IsSquareRoot;
    DiagnosticsAreSound(sqrt, effects);
    var block := AwareBlock(sqrt, effects);
    PercentileIntervalWithin(effects, draws, block, settings.samples, settings.confidence);
    PValueInUnit(SortedReplicates(effects, draws, block, settings.samples));
  }

  lemma CombinedAreSound(b: Diagnostics, c: Diagnostics)
    requires SoundDiagnostics(b) && SoundDiagnostics(c) && b.n > 0 && c.n > 0
    ensures SoundEstimates(CombineDiagnostics(b, c), if c.n < b.n then c.n else b.n)
  {}

  lemma UnpairedCiIsSound(
      sqrt: real -> real, b: seq<real>, c: seq<real>, direction: Direction, settings: Settings, draws: Draws)
    requires IsSquareRoot(sqrt) && Uniform(draws) && b != [] && c != [] && InvalidSettings(settings) == None
    ensures SoundCi(
      UnpairedCi(sqrt, b, c, direction, settings.confidence, settings.samples, draws),
      if |c| < |b| then |c| else |b|)
  {
    hide Diagnose, CiLow, CiHigh, TwoSidedPValue, Mean, UnpairedReplicates, AwareBlock, IsSquareRoot, CombineDiagnostics;
    DiagnosticsAreSound(sqrt, b);
    DiagnosticsAreSound(sqrt, c);
    CombinedAreSound(Diagnose(sqrt, b), Diagnose(sqrt, c));
    UnpairedIntervalBracketed(sqrt, b, c, direction, settings.confidence, settings.samples, draws);
    var effects := UnpairedReplicates(b, c, direction, draws, AwareBlock(sqrt, b), AwareBlock(sqrt, c), settings.samples);
    Sorting.SortPermutes(effects, RealLeq);
    PValueInUnit(Sorting.Sort(effects, RealLeq));
  }

  lemma ComparisonCiIsSound(sqrt: real -> real, p: Prepared, settings: Settings, draws: Draws)
    requires IsSquareRoot(sqrt) && p.Valid() && InvalidSettings(settings) == None && Uniform(draws)
    ensures SoundCi(ComparisonCi(sqrt, p, settings, draws), ComparisonN(p))
  {
    hide SoundCi, PercentileCi, UnpairedCi, AwareBlock;
    match p.samples
    case Some(s) => PairedCiIsSound(sqrt, PairEffects(s.pairs, p.direction), settings, draws);
    case None => UnpairedCiIsSound(sqrt, p.baselineScores, p.candidateScores, p.direction, settings, draws);
  }

  /** Scaling by a positive factor keeps comparisons. */
  lemma RelativeOrder(x: real, y: real, mean: real, tolerance: real)
    requires tolerance >= 0.0 && Absolute(mean) > tolerance
    ensures RelativePct(x, mean, tolerance).value <= RelativePct(y, mean, tolerance).value <==> x <= y
  {
    var m := Absolute(mean);
    var a, b := x / m, y / m;
    assert a * m == x && b * m == y;
    if a <= b {
      assert 0.0 <= (b - a) * m;
      assert (b - a) * m == y - x;
    } else {
      PositiveProduct(a - b, m, x - y);
    }
  }

  lemma RelativeConsistentIff(sqrt: real -> real, p: Prepared, settings: Settings, ci: BootstrapCi)
    requires p.Valid() && InvalidSettings(settings) == None && ci.ciLow <= ci.ciHigh
    ensures var r := Assemble(sqrt, p, settings, ci);
      RelativeConsistent(r) <==>
        Absolute(Mean(p.baselineScores)) <= settings.baseZeroTolerance || ci.ciLow <= ci.pointEstimate <= ci.ciHigh
  {
    hide Mean, Exploratory, VerdictFor, Conclusive, HighCv, CompleteProvenance, EvidenceOf;
    var mean := Mean(p.baselineScores);
    if Absolute(mean) > settings.baseZeroTolerance {
      RelativeOrder(ci.ciLow, ci.pointEstimate, mean, settings.baseZeroTolerance);
      RelativeOrder(ci.pointEstimate, ci.ciHigh, mean, settings.baseZeroTolerance);
      hide RelativePct;
    }
  }

  lemma VerdictIsDecisionGrade(sqrt: real -> real, p: Prepared, settings: Settings, ci: BootstrapCi)
    requires p.Valid() && InvalidSettings(settings) == None
    ensures SignificanceConsistent(Assemble(sqrt, p, settings, ci))
  {
    hide Mean, HighCv, CompleteProvenance, RelativePct;
  }

  lemma CountsAreConserved(sqrt: real -> real, p: Prepared, settings: Settings, ci: BootstrapCi)
    requires p.Valid() && InvalidSettings(settings) == None && SoundCi(ci, ComparisonN(p))
    ensures var r := Assemble(sqrt, p, settings, ci); CountsConsistent(r) && FieldsInRange(r)
  {
    hide Mean, HighCv, CompleteProvenance, RelativePct, Exploratory, VerdictFor;
  }

  /**
   The draft meets the schema exactly when the baseline mean is around zero or the point estimate
   lies in its own interval.
   */
  lemma SchemaIffEstimateInInterval(sqrt: real -> real, p: Prepared, settings: Settings, draws: Draws)
    requires IsSquareRoot(sqrt) && p.Valid() && InvalidSettings(settings) == None && Uniform(draws)
    ensures var r := Draft(sqrt, p, settings, draws);
      MeetsSchema(r) <==>
        Absolute(Mean(p.baselineScores)) <= settings.baseZeroTolerance || r.ciLow <= r.pointEstimate <= r.ciHigh
  {
    var ci := ComparisonCi(sqrt, p, settings, draws);
    hide ComparisonCi, Mean, Absolute, RelativeConsistent, CountsConsistent, FieldsInRange, SignificanceConsistent,
      Exploratory, VerdictFor, Conclusive, HighCv, CompleteProvenance, EvidenceOf, RelativePct;
    ComparisonCiIsSound(sqrt, p, settings, draws);
    CountsAreConserved(sqrt, p, settings, ci);
    VerdictIsDecisionGrade(sqrt, p, settings, ci);
    RelativeConsistentIff(sqrt, p, settings, ci);
  }

  /** The comparison raises nothing but input errors and an estimate outside its interval. */
  lemma ComparisonSucceedsIff(
      sqrt: real -> real, baseline: seq<RunRecord>, candidate: seq<RunRecord>, settings: Settings, draws: Draws)
    requires IsSquareRoot(sqrt) && Uniform(draws)
    ensures
      var prepared := Prepare(baseline, candidate, settings);
      CompareRunRecords(sqrt, baseline, candidate, settings, draws).Ok? <==>
        && prepared.Ok?
        && var ci := ComparisonCi(sqrt, prepared.value, settings, draws);
          || Absolute(Mean(prepared.value.baselineScores)) <= settings.baseZeroTolerance
          || ci.ciLow <= ci.pointEstimate <= ci.ciHigh
  {
    hide Prepare, ComparisonCi, MeetsSchema, Mean, Absolute;
    var prepared := Prepare(baseline, candidate, settings);
    if prepared.Ok? {
      SchemaIffEstimateInInterval(sqrt, prepared.value, settings, draws);
    }
  }

  lemma PreparationForgetsListing(
      b: seq<RunRecord>, b': seq<RunRecord>, c: seq<RunRecord>, c': seq<RunRecord>, settings: Settings)
    requires multiset(b) == multiset(b') && multiset(c) == multiset(c') && DistinctStarts(b) && DistinctStarts(c)
    ensures Prepare(b, c, settings) == Prepare(b', c', settings)
  {
    hide OrderedMeasured, MeasuredValidScores, ObjectiveDirection, PairedScoreSamples, PairQualityOf, DistinctStarts;
    OrderForgetsListing(b, b');
    OrderForgetsListing(c, c');
  }

  /** With distinct start times the whole comparison is independent of how the runs were listed. */
  lemma ComparisonForgetsListing(
      sqrt: real -> real, b: seq<RunRecord>, b': seq<RunRecord>, c: seq<RunRecord>, c': seq<RunRecord>,
      settings: Settings, draws: Draws)
    requires Uniform(draws)
    requires multiset(b) == multiset(b') && multiset(c) == multiset(c') && DistinctStarts(b) && DistinctStarts(c)
    ensures CompareRunRecords(sqrt, b, c, settings, draws) == CompareRunRecords(sqrt, b', c', settings, draws)
  {
    hide Prepare, Draft, MeetsSchema, DistinctStarts;
    PreparationForgetsListing(b, b', c, c', settings);
  }

  /** A bare measured run, for the example below. */
  function BareRun(at: int, score: real): RunRecord {
    RunRecord(true, true, Some(score), HigherIsBetter, Some(at), Some(at), None, None,
      None, None, None, None, None, None, None)
  }

  lemma BareRunsInOrder(s: seq<RunRecord>)
    requires forall i :: 0 <= i < |s| ==> s[i].measured
    requires forall i, j :: 0 <= i < j < |s| ==> LexLeqOfRuns(s[i], s[j])
    ensures OrderedMeasured(s) == s
  {
    AllMeasured(s);
    InOrderIsFixed(s);
  }

  predicate LexLeqOfRuns(a: RunRecord, b: RunRecord) {
    Sorting.LexLeq(CoarseKey(a), CoarseKey(b))
  }

  lemma FlatDraws(sqrt: real -> real, scores: seq<real>, draws: Draws, first: nat)
    requires IsSquareRoot(sqrt) && draws == ((k: nat, n: nat) => 0) && 1 <= |scores| <= 2
    ensures AwareBlock(sqrt, scores) == None
    ensures ResampledMean(scores, draws, first, None) == scores[0]
  {
    UndefinedIffConstant(sqrt, scores, 1);
    var drawn := Resample(scores, draws, first, None, |scores|);
    MeanBounds(drawn, scores[0], scores[0]);
  }

  lemma ExamplePrepared(b: RunRecord, c: RunRecord, c': RunRecord, settings: Settings)
    requires b == BareRun(0, 1.0) && c == BareRun(1, 0.0) && c' == BareRun(2, 2.0) && InvalidSettings(settings) == None
    ensures Prepare([b], [c, c'], settings) == Ok(Prepared(
      [b], [c, c'], [1.0], [0.0, 2.0], HigherIsBetter, None, PairDiagnostics(Unknown, false, false)))
  {
    BareRunsInOrder([b]);
    BareRunsInOrder([c, c']);
    hide OrderedMeasured;
    assert [b][..0] == [] && [c, c'][..1] == [c] && [c][..0] == [];
    assert ScoresOf([]) == Ok([]) && RecordsByPairKey([]) == Ok([]);
    assert [] + [1.0] == [1.0] && [] + [0.0] == [0.0] && [0.0] + [2.0] == [0.0, 2.0];
    assert ScoresOf([b]) == Ok([1.0]) && ScoresOf([c]) == Ok([0.0]);
    assert ScoresOf([c, c']) == Ok([0.0, 2.0]);
    assert RecordsByPairKey([b]) == Ok([]) && RecordsByPairKey([c]) == Ok([]);
    assert RecordsByPairKey([c, c']) == Ok([]);
    assert PairedScoreSamples([b], [c, c']) == Ok(None);
    assert ObjectiveDirection([b] + [c, c']) == Ok(HigherIsBetter);
  }

  /**
   The remaining gap is real: three ordinary runs and draws that always pick the first one give the
   interval [-1, -1] around a point estimate of 0, and the comparison raises.
   */
  lemma EstimateOutsideIntervalRaises(sqrt: real -> real, settings: Settings, draws: Draws)
    requires IsSquareRoot(sqrt) && draws == ((k: nat, n: nat) => 0)
    requires settings == Settings(0.95, 1, 0.0, 0.3)
    ensures CompareRunRecords(sqrt, [BareRun(0, 1.0)], [BareRun(1, 0.0), BareRun(2, 2.0)], settings, draws)
      == Err(InconsistentResult)
  {
    hide Diagnose, AwareBlock, ResampledMean, MeetsSchema, Prepare, TwoSidedPValue, Assemble;
    ExamplePrepared(BareRun(0, 1.0), BareRun(1, 0.0), BareRun(2, 2.0), settings);
    var b, c := [1.0], [0.0, 2.0];
    ComparisonSucceedsIff(sqrt, [BareRun(0, 1.0)], [BareRun(1, 0.0), BareRun(2, 2.0)], settings, draws);
    ExampleInterval(sqrt, draws);
    assert Mean(b) == 1.0 by { SumOfOne(1.0); }
  }

  lemma SumOfOne(x: real)
    ensures Sum([x]) == x
  {
    assert [x][..0] == [];
  }

  lemma ExampleInterval(sqrt: real -> real, draws: Draws)
    requires IsSquareRoot(sqrt) && draws == ((k: nat, n: nat) => 0)
    ensures var ci := UnpairedCi(sqrt, [1.0], [0.0, 2.0], HigherIsBetter, 0.95, 1, draws);
      ci.ciHigh < ci.pointEstimate
  {
    hide Diagnose, AwareBlock, ResampledMean, TwoSidedPValue, CiLow, CiHigh, CombineDiagnostics;
    var b, c := [1.0], [0.0, 2.0];
    FlatDraws(sqrt, b, draws, 0);
    FlatDraws(sqrt, c, draws, 1);
    var effects := UnpairedReplicates(b, c, HigherIsBetter, draws, None, None, 1);
    assert effects == [-1.0];
    Sorting.SortedIsFixed(effects, RealLeq);
    IntervalOrdered(effects, 0.95);
    SumOfOne(1.0);
    SumOfOne(0.0);
    assert c[..1] == [0.0];
    assert Sum(c) == 2.0;
  }
}
