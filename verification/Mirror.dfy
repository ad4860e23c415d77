/**
 Reversing the objective: when less becomes better where more was, every effect changes its sign and
 the whole comparison turns into its mirror image.
 */
module Mirror {
  import opened Wrappers
  import opened RealSeq
  import opened StatsTypes
  import opened Autocorrelation
  import opened Quantile
  import opened Bootstrap
  import opened Comparison
  import Sorting

  function Negated(s: seq<real>): (r: seq<real>)
    ensures |r| == |s|
  {
    seq(|s|, i requires 0 <= i < |s| => -s[i])
  }

  /** The negated values from the last to the first: ascending if `v` was. */
  function Mirrored(v: seq<real>): (r: seq<real>)
    ensures |r| == |v|
  {
    seq(|v|, i requires 0 <= i < |v| => -v[|v| - 1 - i])
  }

  lemma {:induction false} SumNegated(s: seq<real>)
    ensures Sum(Negated(s)) == -Sum(s)
  {
    if s != [] {
      SumNegated(s[..|s| - 1]);
      assert Negated(s)[..|s| - 1] == Negated(s[..|s| - 1]);
    }
  }

  lemma MeanNegated(s: seq<real>)
    requires s != []
    ensures Mean(Negated(s)) == -Mean(s)
  {
    SumNegated(s);
  }

  lemma {:induction false} DotNegated(a: seq<real>, b: seq<real>)
    requires |a| == |b|
    ensures Dot(Negated(a), Negated(b)) == Dot(a, b)
  {
    if a != [] {
      var n := |a| - 1;
      DotNegated(a[..n], b[..n]);
      assert Negated(a)[..n] == Negated(a[..n]) && Negated(b)[..n] == Negated(b[..n]);
      assert Times(-a[n], -b[n]) == Times(a[n], b[n]);
    }
  }

  lemma DeviationsNegated(s: seq<real>)
    ensures Deviations(Negated(s)) == Negated(Deviations(s))
  {
    if s != [] {
      MeanNegated(s);
    }
  }

  lemma SegmentsNegated(s: seq<real>, lag: nat)
    requires lag < |s|
    ensures CurrentDeviations(Negated(s), lag) == Negated(CurrentDeviations(s, lag))
    ensures PreviousDeviations(Negated(s), lag) == Negated(PreviousDeviations(s, lag))
  {
    assert Negated(s)[lag..] == Negated(s[lag..]);
    assert Negated(s)[..|s| - lag] == Negated(s[..|s| - lag]);
    DeviationsNegated(s[lag..]);
    DeviationsNegated(s[..|s| - lag]);
  }

  lemma CovariationNegated(s: seq<real>, lag: nat)
    requires lag < |s|
    ensures Covariation(Negated(s), lag) == Covariation(s, lag)
    ensures VariationProduct(Negated(s), lag) == VariationProduct(s, lag)
  {
    hide CurrentDeviations, PreviousDeviations, Dot, Negated;
    SegmentsNegated(s, lag);
    var x, y := CurrentDeviations(s, lag), PreviousDeviations(s, lag);
    DotNegated(x, y);
    DotNegated(x, x);
    DotNegated(y, y);
  }

  lemma AutocorrelationNegated(sqrt: real -> real, s: seq<real>, lag: nat)
    requires lag > 0
    ensures LagAutocorrelation(sqrt, Negated(s), lag) == LagAutocorrelation(sqrt, s, lag)
  {
    hide Covariation, VariationProduct;
    if lag < |s| {
      CovariationNegated(s, lag);
    }
  }

  lemma {:induction false} PositiveSumNegated(sqrt: real -> real, s: seq<real>, lag: nat, limit: nat)
    requires lag > 0
    ensures InitialPositiveSum(sqrt, Negated(s), lag, limit) == InitialPositiveSum(sqrt, s, lag, limit)
    decreases limit - lag
  {
    hide LagAutocorrelation;
    AutocorrelationNegated(sqrt, s, lag);
    if lag <= limit {
      PositiveSumNegated(sqrt, s, lag + 1, limit);
    }
  }

  lemma DiagnosisNegated(sqrt: real -> real, s: seq<real>)
    ensures Diagnose(sqrt, Negated(s)) == Diagnose(sqrt, s)
  {
    hide LagAutocorrelation, InitialPositiveSum, SharedEss;
    AutocorrelationNegated(sqrt, s, 1);
    PositiveSumNegated(sqrt, s, 1, LagLimit(|s|));
  }

  lemma ReplicatesNegated(values: seq<real>, draws: Draws, block: Option<nat>, samples: nat)
    requires Uniform(draws) && BlockFits(block, |values|) && values != []
    ensures Replicates(Negated(values), draws, block, samples) == Negated(Replicates(values, draws, block, samples))
  {
    forall s | 0 <= s < samples
      ensures Replicates(Negated(values), draws, block, samples)[s] == -Replicates(values, draws, block, samples)[s]
    {
      var drawn := Resample(values, draws, FirstCall(s, DrawCount(|values|, block)), block, |values|);
      assert Resample(Negated(values), draws, FirstCall(s, DrawCount(|values|, block)), block, |values|) == Negated(drawn);
      MeanNegated(drawn);
    }
  }

  lemma {:induction false} NegatedMultiplicity(s: seq<real>, x: real)
    ensures multiset(Negated(s))[x] == multiset(s)[-x]
  {
    if s != [] {
      var front, last := s[..|s| - 1], s[|s| - 1];
      NegatedMultiplicity(front, x);
      assert s == front + [last] && Negated(s) == Negated(front) + [-last];
    }
  }

  lemma {:induction false} MirroredMultiplicity(v: seq<real>, x: real)
    ensures multiset(Mirrored(v))[x] == multiset(v)[-x]
  {
    if v != [] {
      var front, last := v[..|v| - 1], v[|v| - 1];
      MirroredMultiplicity(front, x);
      assert v == front + [last] && Mirrored(v) == [-last] + Mirrored(front);
    }
  }

  lemma SortNegated(s: seq<real>)
    ensures Sorting.Sort(Negated(s), RealLeq) == Mirrored(Sorting.Sort(s, RealLeq))
  {
    var a, b := Sorting.Sort(Negated(s), RealLeq), Mirrored(Sorting.Sort(s, RealLeq));
    Sorting.SortPermutes(Negated(s), RealLeq);
    Sorting.SortPermutes(s, RealLeq);
    SortedIsAscending(Negated(s));
    SortedIsAscending(s);
    forall x ensures multiset(a)[x] == multiset(b)[x] {
      NegatedMultiplicity(s, x);
      MirroredMultiplicity(Sorting.Sort(s, RealLeq), x);
    }
    Sorting.SortedIsUnique(a, b, RealLeq);
  }

  lemma QuantileMirrored(v: seq<real>, q: real)
    requires v != [] && 0.0 <= q <= 1.0
    ensures QuantileSorted(Mirrored(v), q) == -QuantileSorted(v, 1.0 - q)
  {
    PositionInRange(|v|, q);
    PositionInRange(|v|, 1.0 - q);
    var m := (|v| - 1) as real;
    var p := Position(|v|, q);
    assert Position(|v|, 1.0 - q) == m - p by {
      assert m * (1.0 - q) == m - m * q;
    }
    hide Position;
    MirroredFloor(|v| - 1, p);
    MirroredValue(v, p);
  }

  lemma MirroredValue(v: seq<real>, p: real)
    requires InRange(|v|, p) && InRange(|v|, (|v| - 1) as real - p)
    ensures ValueAt(Mirrored(v), p) == -ValueAt(v, (|v| - 1) as real - p)
  {
    MirroredFloor(|v| - 1, p);
    var x, y := v[|v| - 1 - p.Floor], v[|v| - 1 - Ceil(p)];
    if p.Floor < Ceil(p) {
      var q, w := (|v| - 1) as real - p, p - p.Floor as real;
      assert q - q.Floor as real == 1.0 - w;
      assert ValueAt(v, q) == y + (x - y) * (1.0 - w);
      assert ValueAt(Mirrored(v), p) == -x + (-y - -x) * w;
      InterpolateBack(x, y, w);
    }
  }

  /** From `x` part of the way to `y` is the rest of the way from `y` to `x`. */
  lemma InterpolateBack(x: real, y: real, w: real)
    ensures -x + (-y - -x) * w == -(y + (x - y) * (1.0 - w))
  {
    var d := x - y;
    assert d * (1.0 - w) == d - d * w;
  }

  lemma IntervalMirrored(v: seq<real>, confidence: real)
    requires v != [] && 0.0 < confidence < 1.0
    ensures CiLow(Mirrored(v), confidence) == -CiHigh(v, confidence)
    ensures CiHigh(Mirrored(v), confidence) == -CiLow(v, confidence)
  {
    QuantileMirrored(v, LowerTail(confidence));
    QuantileMirrored(v, 1.0 - LowerTail(confidence));
  }

  lemma {:induction false} CountFirst(x: real, s: seq<real>, holds: real -> bool)
    ensures Count([x] + s, holds) == Count(s, holds) + if holds(x) then 1 else 0
  {
    if s == [] {
      assert [x] + s == [x] && [x][..0] == [];
    } else {
      CountFirst(x, s[..|s| - 1], holds);
      assert ([x] + s)[..|s|] == [x] + s[..|s| - 1];
    }
  }

  lemma {:induction false} CountMirrored(v: seq<real>)
    ensures Count(Mirrored(v), NonPositive) == Count(v, NonNegative)
    ensures Count(Mirrored(v), NonNegative) == Count(v, NonPositive)
  {
    if v != [] {
      var front, last := v[..|v| - 1], v[|v| - 1];
      CountMirrored(front);
      assert Mirrored(v) == [-last] + Mirrored(front);
      CountFirst(-last, Mirrored(front), NonPositive);
      CountFirst(-last, Mirrored(front), NonNegative);
    }
  }

  lemma PValueMirrored(v: seq<real>)
    requires v != []
    ensures TwoSidedPValue(Mirrored(v)) == TwoSidedPValue(v)
  {
    CountMirrored(v);
    hide Count;
    var m := Mirrored(v);
    forall i | 0 <= i < |v| ensures v[i] == -m[|v| - 1 - i] {
    }
  }

  function Opposite(d: Direction): Direction {
    if d == HigherIsBetter then LowerIsBetter else HigherIsBetter
  }

  function MirroredCi(ci: BootstrapCi): BootstrapCi {
    ci.(pointEstimate := -ci.pointEstimate, ciLow := -ci.ciHigh, ciHigh := -ci.ciLow)
  }

  lemma PercentileCiMirrored(
      sqrt: real -> real, values: seq<real>, confidence: real, samples: int, draws: Draws, block: Option<nat>)
    requires Uniform(draws) && BlockFits(block, |values|)
    requires InvalidArguments(values, confidence, samples) == None
    ensures PercentileCi(sqrt, Negated(values), confidence, samples, draws, block)
      == MirroredCi(PercentileCi(sqrt, values, confidence, samples, draws, block))
  {
    hide Diagnose, CiLow, CiHigh, TwoSidedPValue, Mean, Replicates, Sorting.Sort, Negated, Mirrored;
    var replicates := Replicates(values, draws, block, samples);
    ReplicatesNegated(values, draws, block, samples);
    SortNegated(replicates);
    var v := SortedReplicates(values, draws, block, samples);
    IntervalMirrored(v, confidence);
    PValueMirrored(v);
    MeanNegated(values);
    DiagnosisNegated(sqrt, values);
  }

  lemma UnpairedReplicatesMirrored(
      b: seq<real>, c: seq<real>, direction: Direction, draws: Draws, bBlock: Option<nat>, cBlock: Option<nat>,
      samples: nat)
    requires Uniform(draws) && b != [] && c != [] && BlockFits(bBlock, |b|) && BlockFits(cBlock, |c|)
    ensures UnpairedReplicates(b, c, Opposite(direction), draws, bBlock, cBlock, samples)
      == Negated(UnpairedReplicates(b, c, direction, draws, bBlock, cBlock, samples))
  {
    hide ResampledMean, DrawCount, FirstCall;
  }

  lemma UnpairedCiMirrored(
      sqrt: real -> real, b: seq<real>, c: seq<real>, direction: Direction, confidence: real, samples: nat, draws: Draws)
    requires Uniform(draws) && b != [] && c != [] && 0.0 < confidence < 1.0 && samples > 0
    ensures UnpairedCi(sqrt, b, c, Opposite(direction), confidence, samples, draws)
      == MirroredCi(UnpairedCi(sqrt, b, c, direction, confidence, samples, draws))
  {
    hide Diagnose, CiLow, CiHigh, TwoSidedPValue, Mean, UnpairedReplicates, Sorting.Sort, Negated, Mirrored,
      CombineDiagnostics, AwareBlock, LargerBlock;
    var bBlock, cBlock := AwareBlock(sqrt, b), AwareBlock(sqrt, c);
    var effects := UnpairedReplicates(b, c, direction, draws, bBlock, cBlock, samples);
    UnpairedReplicatesMirrored(b, c, direction, draws, bBlock, cBlock, samples);
    SortNegated(effects);
    Sorting.SortPermutes(effects, RealLeq);
    var v := Sorting.Sort(effects, RealLeq);
    IntervalMirrored(v, confidence);
    PValueMirrored(v);
  }

  /** The same runs under the opposite objective. */
  function Reversed(p: Prepared): Prepared {
    p.(direction := Opposite(p.direction))
  }

  lemma CiMirrored(sqrt: real -> real, p: Prepared, settings: Settings, draws: Draws)
    requires p.Valid() && InvalidSettings(settings) == None && Uniform(draws)
    ensures ComparisonCi(sqrt, Reversed(p), settings, draws) == MirroredCi(ComparisonCi(sqrt, p, settings, draws))
  {
    hide PercentileCi, UnpairedCi, Diagnose;
    match p.samples
    case Some(s) =>
      var effects := PairEffects(s.pairs, p.direction);
      assert PairEffects(s.pairs, Opposite(p.direction)) == Negated(effects);
      DiagnosisNegated(sqrt, effects);
      PercentileCiMirrored(sqrt, effects, settings.confidence, settings.samples, draws, AwareBlock(sqrt, effects));
    case None =>
      UnpairedCiMirrored(sqrt, p.baselineScores, p.candidateScores, p.direction, settings.confidence, settings.samples, draws);
  }

  function MirroredVerdict(v: Verdict): Verdict {
    match v
    case SignificantImprovement => SignificantRegression
    case SignificantRegression => SignificantImprovement
    case Inconclusive => Inconclusive
    case NoDifference => NoDifference
  }

  function MirroredSignal(s: ExploratorySignal): ExploratorySignal {
    match s
    case SuggestiveImprovement => SuggestiveRegression
    case SuggestiveRegression => SuggestiveImprovement
    case NoSignal => NoSignal
  }

  function Minus(x: Option<real>): Option<real> {
    if x == None then None else Some(-x.value)
  }

  /** The result read in a mirror; everything it does not name stays the same. */
  function MirroredResult(r: StatisticalResult): StatisticalResult {
    r.(
      objectiveDirection := Opposite(r.objectiveDirection),
      pointEstimate := -r.pointEstimate, ciLow := -r.ciHigh, ciHigh := -r.ciLow,
      relativeEffectPct := Minus(r.relativeEffectPct),
      relativeCiLowPct := Minus(r.relativeCiHighPct), relativeCiHighPct := Minus(r.relativeCiLowPct),
      verdict := MirroredVerdict(r.verdict), exploratorySignal := MirroredSignal(r.exploratorySignal))
  }

  lemma RelativeMirrored(x: real, mean: real, tolerance: real)
    requires tolerance >= 0.0
    ensures RelativePct(-x, mean, tolerance) == Minus(RelativePct(x, mean, tolerance))
  {
    if Absolute(mean) > tolerance {
      var m := Absolute(mean);
      var ratio := x / m;
      assert (-ratio) * m == -x;
      assert -x / m == -ratio;
    }
  }

  lemma AssemblyMirrored(sqrt: real -> real, p: Prepared, settings: Settings, ci: BootstrapCi)
    requires p.Valid() && InvalidSettings(settings) == None && ci.ciLow <= ci.ciHigh
    ensures Assemble(sqrt, Reversed(p), settings, MirroredCi(ci)) == MirroredResult(Assemble(sqrt, p, settings, ci))
  {
    hide Mean, CoefficientOfVariation, CompleteProvenance, RelativePct, Diagnose, Conclusive;
    var mean := Mean(p.baselineScores);
    RelativeMirrored(ci.pointEstimate, mean, settings.baseZeroTolerance);
    RelativeMirrored(ci.ciLow, mean, settings.baseZeroTolerance);
    RelativeMirrored(ci.ciHigh, mean, settings.baseZeroTolerance);
  }

  /** The comparison under the opposite objective is the mirror image of the comparison. */
  lemma ReversedComparisonIsMirrored(sqrt: real -> real, p: Prepared, settings: Settings, draws: Draws)
    requires IsSquareRoot(sqrt) && p.Valid() && InvalidSettings(settings) == None && Uniform(draws)
    ensures Draft(sqrt, Reversed(p), settings, draws) == MirroredResult(Draft(sqrt, p, settings, draws))
  {
    hide ComparisonCi, Assemble;
    CiMirrored(sqrt, p, settings, draws);
    ComparisonCiIsSound(sqrt, p, settings, draws);
    AssemblyMirrored(sqrt, p, settings, ComparisonCi(sqrt, p, settings, draws));
  }
}
