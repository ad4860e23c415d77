/**
 What each verdict says about the data and the runs behind it, in terms of the result itself, and which
 verdict steady runs get.
 */
module Verdicts {
  import opened Wrappers
  import opened RealSeq
  import opened StatsTypes
  import opened Autocorrelation
  import opened Quantile
  import opened Bootstrap
  import opened RecordOrder
  import opened Pairing
  import opened Comparison
  import opened Acceptance

  /** Both arms carry the same pair keys, and the quality of the pairs is good. */
  ghost predicate WellPaired(p: Prepared)
    requires p.samples.Some?
  {
    var b, c := RecordsByPairKey(p.baselineMeasured), RecordsByPairKey(p.candidateMeasured);
    p.quality.quality == Good && b.Ok? && c.Ok? && KeysOf(b.value) == KeysOf(c.value)
  }

  /** The data can carry a verdict at all. */
  ghost predicate Decisive(p: Prepared, r: StatisticalResult) {
    EnoughData(r) && (p.samples.Some? ==> WellPaired(p))
  }

  /** Some pair, or some combination of a baseline and a candidate run, shows the candidate worse. */
  ghost predicate SomeRunsWorsened(p: Prepared)
    requires p.Valid()
  {
    match p.samples
    case Some(s) => exists i :: 0 <= i < |s.pairs| && PairEffects(s.pairs, p.direction)[i] < 0.0
    case None =>
      exists i, j :: 0 <= i < |p.baselineScores| && 0 <= j < |p.candidateScores|
        && SignedEffect(p.baselineScores[i], p.candidateScores[j], p.direction) < 0.0
  }

  lemma EnoughRunsForEss(sqrt: real -> real, p: Prepared, settings: Settings, draws: Draws)
    requires IsSquareRoot(sqrt) && p.Valid() && InvalidSettings(settings) == None && Uniform(draws)
    ensures ComparisonCi(sqrt, p, settings, draws).diagnostics.essPreliminary ==> ComparisonN(p) < ACF_MIN_N
  {
    hide AwareBlock, Diagnose, CiLow, CiHigh, TwoSidedPValue, Mean, SortedReplicates, UnpairedReplicates, IsSquareRoot,
      Uniform;
    match p.samples
    case Some(s) =>
      DiagnosticsAreSound(sqrt, PairEffects(s.pairs, p.direction));
    case None =>
      DiagnosticsAreSound(sqrt, p.baselineScores);
      DiagnosticsAreSound(sqrt, p.candidateScores);
  }

  lemma EvidenceIff(sqrt: real -> real, p: Prepared, settings: Settings, ci: BootstrapCi)
    requires p.Valid() && InvalidSettings(settings) == None
    requires ci.diagnostics.essPreliminary ==> ComparisonN(p) < ACF_MIN_N
    ensures
      var r := Assemble(sqrt, p, settings, ci);
      r.verdict != Inconclusive <==>
        && EnoughData(r) && (p.samples.Some? ==> p.quality.quality == Good && !p.samples.value.partialPairing)
  {
    hide Mean, HighCv, CompleteProvenance, RelativePct, Exploratory;
  }

  lemma FullIff(baseline: seq<RunRecord>, candidate: seq<RunRecord>, settings: Settings)
    requires Prepare(baseline, candidate, settings).Ok?
    requires Prepare(baseline, candidate, settings).value.samples.Some?
    ensures var p := Prepare(baseline, candidate, settings).value;
      p.quality.quality == Good && !p.samples.value.partialPairing <==> WellPaired(p)
  {
    hide Prepare, RecordsByPairKey, MatchedPairs, KeysOf, OrderedMeasured, PairQualityOf;
    PreparedPairing(baseline, candidate, settings);
    var p := Prepare(baseline, candidate, settings).value;
    FullPairingMatchesEveryKey(p.baselineMeasured, p.candidateMeasured);
  }

  lemma IntervalDecides(sqrt: real -> real, p: Prepared, settings: Settings, ci: BootstrapCi)
    requires p.Valid() && InvalidSettings(settings) == None && ci.ciLow <= ci.ciHigh
    ensures
      var r := Assemble(sqrt, p, settings, ci);
      && r.lowPower == (r.verdict == Inconclusive)
      && (r.verdict == SignificantImprovement <==> !r.lowPower && r.ciLow > 0.0)
      && (r.verdict == SignificantRegression <==> !r.lowPower && r.ciHigh < 0.0)
      && (r.verdict == NoDifference <==> !r.lowPower && r.ciLow <= 0.0 <= r.ciHigh)
  {
    hide Mean, HighCv, CompleteProvenance, RelativePct, Exploratory, EvidenceOf, Conclusive;
  }

  /** A verdict other than inconclusive needs decisive data, and the interval's place around zero tells which. */
  lemma VerdictIff(
      sqrt: real -> real, baseline: seq<RunRecord>, candidate: seq<RunRecord>, settings: Settings, draws: Draws,
      r: StatisticalResult)
    requires IsSquareRoot(sqrt) && Uniform(draws)
    requires CompareRunRecords(sqrt, baseline, candidate, settings, draws) == Ok(r)
    ensures Prepare(baseline, candidate, settings).Ok?
    ensures
      var decisive := Decisive(Prepare(baseline, candidate, settings).value, r);
      && (r.verdict == SignificantImprovement <==> decisive && r.ciLow > 0.0)
      && (r.verdict == SignificantRegression <==> decisive && r.ciHigh < 0.0)
      && (r.verdict == NoDifference <==> decisive && r.ciLow <= 0.0 <= r.ciHigh)
      && (r.verdict == Inconclusive <==> !decisive) && r.lowPower == !decisive && r.ciLow <= r.ciHigh
  {
    hide Prepare, ComparisonCi, Assemble, MeetsSchema, EnoughData, WellPaired, IsSquareRoot, Uniform;
    var p := Prepare(baseline, candidate, settings).value;
    var ci := ComparisonCi(sqrt, p, settings, draws);
    ComparisonCiIsSound(sqrt, p, settings, draws);
    EnoughRunsForEss(sqrt, p, settings, draws);
    EvidenceIff(sqrt, p, settings, ci);
    IntervalDecides(sqrt, p, settings, ci);
    AssembledInterval(sqrt, p, settings, ci);
    if p.samples.Some? {
      FullIff(baseline, candidate, settings);
    }
  }

  lemma AssembledInterval(sqrt: real -> real, p: Prepared, settings: Settings, ci: BootstrapCi)
    requires p.Valid() && InvalidSettings(settings) == None
    ensures var r := Assemble(sqrt, p, settings, ci);
      r.ciLow == ci.ciLow && r.ciHigh == ci.ciHigh && r.pValue == Some(ci.pValue)
  {}

  lemma WorseningIsReal(sqrt: real -> real, p: Prepared, settings: Settings, draws: Draws)
    requires IsSquareRoot(sqrt) && p.Valid() && InvalidSettings(settings) == None && Uniform(draws)
    requires ComparisonCi(sqrt, p, settings, draws).ciHigh < 0.0
    ensures SomeRunsWorsened(p)
  {
    hide AwareBlock, Diagnose, SortedReplicates, CiLow, CiHigh, TwoSidedPValue, Mean, IsSquareRoot, Uniform;
    match p.samples
    case Some(s) =>
      var effects := PairEffects(s.pairs, p.direction);
      PercentileIntervalWithin(effects, draws, AwareBlock(sqrt, effects), settings.samples, settings.confidence);
    case None =>
      UnpairedIntervalBracketed(sqrt, p.baselineScores, p.candidateScores, p.direction,
        settings.confidence, settings.samples, draws);
  }

  /** A regression shows in the runs as an improvement does, and its p-value is capped alike. */
  lemma RegressionIsReal(
      sqrt: real -> real, baseline: seq<RunRecord>, candidate: seq<RunRecord>, settings: Settings, draws: Draws,
      r: StatisticalResult)
    requires IsSquareRoot(sqrt) && Uniform(draws)
    requires CompareRunRecords(sqrt, baseline, candidate, settings, draws) == Ok(r)
    requires r.verdict == SignificantRegression
    ensures Prepare(baseline, candidate, settings).Ok?
    ensures EnoughData(r) && r.ciHigh < 0.0 && r.pValue.Some? && settings.samples > 0
    ensures r.pValue.value <= TailBound(settings.samples, Ceil(TailPosition(settings.samples, settings.confidence)))
    ensures SomeRunsWorsened(Prepare(baseline, candidate, settings).value)
  {
    hide Prepare, ComparisonCi, Assemble, MeetsSchema, EnoughData, WellPaired, IsSquareRoot, Uniform, TailBound,
      TailPosition, SomeRunsWorsened;
    VerdictIff(sqrt, baseline, candidate, settings, draws, r);
    var p := Prepare(baseline, candidate, settings).value;
    AssembledInterval(sqrt, p, settings, ComparisonCi(sqrt, p, settings, draws));
    OneSidedIntervalCapsPValue(sqrt, p, settings, draws);
    WorseningIsReal(sqrt, p, settings, draws);
  }

  /** The verdict a steady effect deserves when there is data enough. */
  function VerdictOfEffect(effect: real): Verdict {
    if effect > 0.0 then SignificantImprovement else if effect < 0.0 then SignificantRegression else NoDifference
  }

  /** Steady runs without keys get the verdict of their effect exactly from ten runs an arm on, whatever is drawn. */
  lemma SteadyVerdict(
      sqrt: real -> real, baseline: seq<RunRecord>, candidate: seq<RunRecord>, b: real, c: real, direction: Direction,
      settings: Settings, draws: Draws)
    requires IsSquareRoot(sqrt) && Uniform(draws) && InvalidSettings(settings) == None
    requires SteadyArm(baseline, b, direction) && SteadyArm(candidate, c, direction)
    requires OrderedMeasured(baseline) != [] && OrderedMeasured(candidate) != []
    ensures
      var r := CompareRunRecords(sqrt, baseline, candidate, settings, draws);
      && r.Ok?
      && r.value.verdict ==
        if |OrderedMeasured(baseline)| < 10 || |OrderedMeasured(candidate)| < 10 then Inconclusive
        else VerdictOfEffect(SignedEffect(b, c, direction))
  {
    hide OrderedMeasured, SteadyArm, Prepare, UnpairedCi, MeetsSchema, HighCv, Exploratory, CompleteProvenance, Mean,
      RelativePct, Absolute;
    var x, y := OrderedMeasured(baseline), OrderedMeasured(candidate);
    SteadyPrepared(baseline, candidate, b, c, direction, settings);
    SteadyInterval(sqrt, |x|, |y|, b, c, direction, settings, draws);
    ComparisonSucceedsIff(sqrt, baseline, candidate, settings, draws);
  }

  /** And steady pairs exactly from ten good and full pairs on. */
  lemma SteadyPairsVerdict(
      sqrt: real -> real, baseline: seq<RunRecord>, candidate: seq<RunRecord>, b: real, c: real, direction: Direction,
      settings: Settings, draws: Draws, s: PairedSamples)
    requires IsSquareRoot(sqrt) && Uniform(draws) && InvalidSettings(settings) == None
    requires SteadyScored(baseline, b, direction) && SteadyScored(candidate, c, direction)
    requires PairedScoreSamples(OrderedMeasured(baseline), OrderedMeasured(candidate)) == Ok(Some(s))
    requires PairQualityOf(s.pairs).Ok?
    ensures
      var r := CompareRunRecords(sqrt, baseline, candidate, settings, draws);
      && r.Ok? && r.value.paired
      && r.value.verdict ==
        if |s.pairs| < 10 || s.partialPairing || PairQualityOf(s.pairs).value.quality != Good then Inconclusive
        else VerdictOfEffect(SignedEffect(b, c, direction))
  {
    hide OrderedMeasured, SteadyScored, Prepare, PercentileCi, MeetsSchema, HighCv, Exploratory, CompleteProvenance,
      Mean, RelativePct, Absolute, PairEffects, AwareBlock, PairQualityOf, PairedScoreSamples;
    var effect := SignedEffect(b, c, direction);
    SteadyPairedPrepared(baseline, candidate, b, c, direction, settings, s);
    SteadyEffects(baseline, candidate, b, c, direction, s);
    SteadyPairedInterval(sqrt, |s.pairs|, effect, settings, draws);
    ComparisonSucceedsIff(sqrt, baseline, candidate, settings, draws);
  }
}
