/**
 Percentile bootstrap intervals by independent draws and by moving blocks.  The random generator is
 a function `draws`: `draws(k, n)` is what the `k`-th call, `randrange(n)`, returns.  The sampling
 loops are proved to visit the positions of `ResampleIndices`, and the intervals to lie between two
 of the original values.  Every resample takes up the generator where the one before left it, so that any
 combination of draws can come about.
 */
module Bootstrap {
  import opened Wrappers
  import opened Sorting
  import opened RealSeq
  import opened StatsTypes
  import opened Autocorrelation
  import opened Quantile

  const LOW_POWER_RUNS_MAX := 5

  type Draws = (nat, nat) -> nat

  ghost predicate Uniform(draws: Draws) {
    forall k, n :: n > 0 ==> draws(k, n) < n
  }

  predicate BlockFits(block: Option<nat>, n: nat) {
    block.Some? ==> 2 <= block.value <= n
  }

  function CeilDiv(n: nat, b: nat): nat
    requires b > 0
  {
    (n + b - 1) / b
  }

  /** Generator call at which replicate `s` begins. */
  function FirstCall(s: nat, callsPerReplicate: nat): nat {
    s * callsPerReplicate
  }

  lemma NextFirstCall(s: nat, callsPerReplicate: nat)
    ensures FirstCall(0, callsPerReplicate) == 0
    ensures FirstCall(s + 1, callsPerReplicate) == FirstCall(s, callsPerReplicate) + callsPerReplicate
  {}

  /** Generator calls spent on one resample. */
  function DrawCount(n: nat, block: Option<nat>): nat
    requires BlockFits(block, n)
  {
    match block
    case None => n
    case Some(b) => CeilDiv(n, b)
  }

  /** Position of the `i`-th value of the resample that starts at generator call `first`. */
  function ResampleIndex(draws: Draws, first: nat, n: nat, block: Option<nat>, i: nat): (p: nat)
    requires Uniform(draws) && BlockFits(block, n) && n > 0
    ensures p < n
  {
    match block
    case None => draws(first + i, n)
    case Some(b) => draws(first + i / b, n - b + 1) + i % b
  }

  /** The values drawn first, `count` of them. */
  function Resample(values: seq<real>, draws: Draws, first: nat, block: Option<nat>, count: nat): (r: seq<real>)
    requires Uniform(draws) && BlockFits(block, |values|) && values != []
    ensures |r| == count
  {
    seq(count, i requires 0 <= i < count => values[ResampleIndex(draws, first, |values|, block, i)])
  }

  /** One bootstrap replicate: the mean of exactly `|values|` drawn values. */
  function ResampledMean(values: seq<real>, draws: Draws, first: nat, block: Option<nat>): real
    requires Uniform(draws) && BlockFits(block, |values|) && values != []
  {
    Mean(Resample(values, draws, first, block, |values|))
  }

  lemma ResampleSnoc(values: seq<real>, draws: Draws, first: nat, block: Option<nat>, k: nat)
    requires Uniform(draws) && BlockFits(block, |values|) && values != []
    ensures Sum(Resample(values, draws, first, block, k + 1)) ==
      Sum(Resample(values, draws, first, block, k)) + values[ResampleIndex(draws, first, |values|, block, k)]
  {
    var s := Resample(values, draws, first, block, k + 1);
    assert s == Resample(values, draws, first, block, k) + [s[k]];
    SumSnoc(Resample(values, draws, first, block, k), s[k]);
  }

  /** Inside a block consecutive positions follow each other: a block is a run of the input. */
  lemma BlocksAreRuns(draws: Draws, first: nat, n: nat, b: nat, i: nat)
    requires Uniform(draws) && 2 <= b <= n && 0 < i
    ensures i % b != 0 ==>
      ResampleIndex(draws, first, n, Some(b), i) == ResampleIndex(draws, first, n, Some(b), i - 1) + 1
  {
    if i % b != 0 {
      DivMod(i / b, b, i % b - 1);
      assert i == (i / b) * b + i % b;
    }
  }

  lemma DivMod(t: nat, b: nat, j: nat)
    requires j < b
    ensures (t * b + j) / b == t && (t * b + j) % b == j
  {
    var x := t * b + j;
    assert x == (x / b) * b + x % b;
    QuotientUnique(x / b, x % b, t, j, b);
  }

  lemma QuotientUnique(q: nat, r: nat, q': nat, r': nat, b: nat)
    requires r < b && r' < b && q * b + r == q' * b + r'
    ensures q == q' && r == r'
  {
    var d := q - q';
    assert d * b == r' - r;
    assert 0 - b < d * b < b;
  }

  /** Where the `t`-th block of a resample begins. */
  function BlockStart(t: nat, b: nat): nat {
    t * b
  }

  lemma NextBlockStart(t: nat, b: nat)
    ensures BlockStart(0, b) == 0 && BlockStart(t + 1, b) == BlockStart(t, b) + b
  {}

  lemma BlockIndex(draws: Draws, first: nat, n: nat, b: nat, t: nat, j: nat, k: nat)
    requires Uniform(draws) && 2 <= b <= n && j < b && k == BlockStart(t, b) + j
    ensures ResampleIndex(draws, first, n, Some(b), k) == draws(first + t, n - b + 1) + j
  {
    DivMod(t, b, j);
  }

  lemma QuotientPositive(x: nat, b: nat)
    requires 0 < b <= x
    ensures x / b > 0
  {
    assert x == (x / b) * b + x % b;
  }

  lemma CeilDivCovers(n: nat, b: nat)
    requires b > 0
    ensures BlockStart(CeilDiv(n, b), b) >= n
  {
    var x := n + b - 1;
    assert x == (x / b) * b + x % b;
  }

  /** As many blocks as it takes and no more. */
  lemma CeilDivIsLeast(n: nat, b: nat)
    requires b > 0 && n > 0
    ensures CeilDiv(n, b) > 0 && BlockStart(CeilDiv(n, b) - 1, b) < n <= BlockStart(CeilDiv(n, b), b)
  {
    CeilDivCovers(n, b);
    var x := n + b - 1;
    assert x == (x / b) * b + x % b;
    QuotientPositive(x, b);
    NextBlockStart(x / b - 1, b);
  }

  lemma MeanOfSum(values: seq<real>, draws: Draws, first: nat, block: Option<nat>)
    requires Uniform(draws) && BlockFits(block, |values|) && values != []
    ensures ResampledMean(values, draws, first, block) ==
      Sum(Resample(values, draws, first, block, |values|)) / |values| as real
  {}

  /** Independent draws: one generator call per value. */
  method IidSampleMean(values: seq<real>, draws: Draws, first: nat) returns (mean: real, next: nat)
    requires Uniform(draws) && values != []
    ensures mean == ResampledMean(values, draws, first, None)
    ensures next == first + |values|
  {
    var n, sampleSum := |values|, 0.0;
    next := first;
    for i := 0 to n
      invariant sampleSum == Sum(Resample(values, draws, first, None, i))
      invariant next == first + i
    {
      ResampleSnoc(values, draws, first, None, i);
      sampleSum := sampleSum + values[draws(next, n)];
      next := next + 1;
    }
    mean := sampleSum / n as real;
  }

  /** Moving blocks: one generator call per block, the last block cut off at `n` values. */
  method BlockSampleMean(values: seq<real>, draws: Draws, first: nat, b: nat) returns (mean: real, next: nat)
    requires Uniform(draws) && 2 <= b <= |values|
    ensures mean == ResampledMean(values, draws, first, Some(b))
    ensures next == first + CeilDiv(|values|, b)
  {
    assert Sum(Resample(values, draws, first, Some(b), 0)) == 0.0;
    hide Resample, ResampleIndex, ResampledMean, CeilDiv, BlockStart, Sum;
    var n := |values|;
    var maxStart, blocksNeeded := n - b, CeilDiv(n, b);
    CeilDivCovers(n, b);
    var sampleSum, sampled := 0.0, 0;
    next := first;
    ghost var offset := 0;
    NextBlockStart(0, b);
    for t := 0 to blocksNeeded
      invariant offset == BlockStart(t, b) && next == first + t
      invariant sampled == if offset < n then offset else n
      invariant sampleSum == Sum(Resample(values, draws, first, Some(b), sampled))
    {
      var start := draws(next, maxStart + 1);
      next := next + 1;
      for j := 0 to b
        invariant sampled == if offset + j < n then offset + j else n
        invariant sampleSum == Sum(Resample(values, draws, first, Some(b), sampled))
      {
        if sampled >= n {
          break;
        }
        BlockIndex(draws, first, n, b, t, j, sampled);
        ResampleSnoc(values, draws, first, Some(b), sampled);
        sampleSum := sampleSum + values[start + j];
        sampled := sampled + 1;
      }
      offset := offset + b;
      NextBlockStart(t, b);
    }
    MeanOfSum(values, draws, first, Some(b));
    mean := sampleSum / n as real;
  }

  /** Indices of a least and of a greatest element. */
  lemma Extremes(v: seq<real>) returns (low: nat, high: nat)
    requires v != []
    ensures low < |v| && high < |v|
    ensures forall i :: 0 <= i < |v| ==> v[low] <= v[i] <= v[high]
  {
    low, high := 0, 0;
    for k := 1 to |v|
      invariant low < k && high < k
      invariant forall i :: 0 <= i < k ==> v[low] <= v[i] <= v[high]
    {
      if v[k] < v[low] {
        low := k;
      }
      if v[k] > v[high] {
        high := k;
      }
    }
  }

  /** A replicate never leaves the range of the values it was drawn from. */
  lemma ReplicateInRange(values: seq<real>, draws: Draws, first: nat, block: Option<nat>, low: real, high: real)
    requires Uniform(draws) && BlockFits(block, |values|) && values != []
    requires forall i :: 0 <= i < |values| ==> low <= values[i] <= high
    ensures low <= ResampledMean(values, draws, first, block) <= high
  {
    MeanBounds(Resample(values, draws, first, block, |values|), low, high);
  }

  predicate RealLeq(a: real, b: real) {
    a <= b
  }

  /** The sorted replicates, `samples` of them, each from fresh generator calls. */
  function SortedReplicates(values: seq<real>, draws: Draws, block: Option<nat>, samples: nat): (r: seq<real>)
    requires Uniform(draws) && BlockFits(block, |values|) && values != []
    ensures |r| == samples
  {
    var replicates := Replicates(values, draws, block, samples);
    SortPermutes(replicates, RealLeq);
    Sort(replicates, RealLeq)
  }

  function Replicates(values: seq<real>, draws: Draws, block: Option<nat>, samples: nat): (r: seq<real>)
    requires Uniform(draws) && BlockFits(block, |values|) && values != []
    ensures |r| == samples
  {
    seq(samples, s requires 0 <= s < samples =>
      ResampledMean(values, draws, FirstCall(s, DrawCount(|values|, block)), block))
  }

  lemma SortedIsAscending(v: seq<real>)
    ensures Ascending(Sort(v, RealLeq))
  {
    SortSorts(v, RealLeq);
    var s := Sort(v, RealLeq);
    forall i, j | 0 <= i < j < |s| ensures s[i] <= s[j] {
      assert RealLeq(s[i], s[j]);
    }
  }

  /** Some element of `values` is at most `low` and some element is at least `high`, with `low <= high`. */
  ghost predicate IntervalWithin(values: seq<real>, low: real, high: real) {
    low <= high && (exists i :: 0 <= i < |values| && values[i] <= low)
    && (exists j :: 0 <= j < |values| && high <= values[j])
  }

  /** The percentile interval of the replicates lies within the values. */
  lemma PercentileIntervalWithin(values: seq<real>, draws: Draws, block: Option<nat>, samples: nat, confidence: real)
    requires Uniform(draws) && BlockFits(block, |values|) && values != []
    requires samples > 0 && 0.0 < confidence < 1.0
    ensures
      var v := SortedReplicates(values, draws, block, samples);
      IntervalWithin(values, CiLow(v, confidence), CiHigh(v, confidence))
  {
    var v := SortedReplicates(values, draws, block, samples);
    var replicates := Replicates(values, draws, block, samples);
    SortedIsAscending(replicates);
    IntervalOrdered(v, confidence);
    SortMembers(replicates, RealLeq);
    var low, high := Extremes(values);
    forall x | x in replicates ensures values[low] <= x <= values[high] {
      var s :| 0 <= s < samples && replicates[s] == x;
      ReplicateInRange(values, draws, FirstCall(s, DrawCount(|values|, block)), block, values[low], values[high]);
    }
    assert v[0] in v && v[|v| - 1] in v;
    assert values[low] <= CiLow(v, confidence) && CiHigh(v, confidence) <= values[high];
  }

  /** Argument checks shared by the bootstrap entry points, in their order. */
  function InvalidArguments(values: seq<real>, confidence: real, samples: int): Option<StatsError> {
    if values == [] then Some(EmptyScores)
    else if confidence <= 0.0 || confidence >= 1.0 then Some(BadConfidenceLevel)
    else if samples <= 0 then Some(BadBootstrapSamples)
    else None
  }

  function Summarize(sqrt: real -> real, values: seq<real>, confidence: real, v: seq<real>, block: Option<nat>): BootstrapCi
    requires values != [] && v != [] && 0.0 < confidence < 1.0
  {
    BootstrapCi(
      Mean(values), CiLow(v, confidence), CiHigh(v, confidence), confidence, TwoSidedPValue(v),
      if block.Some? then MovingBlock else IidPercentile,
      |values|, Diagnose(sqrt, values), block, None, None)
  }

  /** The interval that one way of resampling produces. */
  function PercentileCi(
      sqrt: real -> real, values: seq<real>, confidence: real, samples: int, draws: Draws, block: Option<nat>)
    : BootstrapCi
    requires Uniform(draws) && BlockFits(block, |values|)
    requires InvalidArguments(values, confidence, samples) == None
  {
    Summarize(sqrt, values, confidence, SortedReplicates(values, draws, block, samples), block)
  }

  /** `iid_percentile_bootstrap_ci`. */
  method IidPercentileBootstrapCi(sqrt: real -> real, values: seq<real>, confidence: real, samples: int, draws: Draws)
    returns (r: Result<BootstrapCi, StatsError>)
    requires Uniform(draws)
    ensures r ==
      match InvalidArguments(values, confidence, samples)
      case Some(e) => Err(e)
      case None => Ok(PercentileCi(sqrt, values, confidence, samples, draws, None))
  {
    var invalid := InvalidArguments(values, confidence, samples);
    if invalid.Some? {
      return Err(invalid.value);
    }
    hide ResampledMean, FirstCall;
    var calls := 0;
    NextFirstCall(0, |values|);
    var means: seq<real> := [];
    for s := 0 to samples
      invariant means == Replicates(values, draws, None, s)
      invariant calls == FirstCall(s, |values|)
    {
      NextFirstCall(s, |values|);
      var mean: real;
      mean, calls := IidSampleMean(values, draws, calls);
      means := means + [mean];
    }
    SortPermutes(means, RealLeq);
    means := Sort(means, RealLeq);
    return Ok(Summarize(sqrt, values, confidence, means, None));
  }

  /** The smallest `k` with `k^3 >= n`, searching upwards. */
  function CubeRootFrom(n: nat, k: nat): (r: nat)
    requires k == 0 || (k - 1) * (k - 1) * (k - 1) < n
    ensures r * r * r >= n
    ensures r == 0 || (r - 1) * (r - 1) * (r - 1) < n
    decreases n - k * k * k
  {
    if k * k * k >= n then k
    else
      CubeGrows(k);
      CubeRootFrom(n, k + 1)
  }

  lemma CubeGrows(k: nat)
    ensures (k + 1) * (k + 1) * (k + 1) > k * k * k
  {
    var square := k * k;
    assert (k + 1) * (k + 1) == square + 2 * k + 1;
    assert (square + 2 * k + 1) * (k + 1) == square * k + square + 2 * square + 2 * k + k + 1;
  }

  function Larger(a: int, b: int): int {
    if a < b then b else a
  }

  function CorrelationLength(n: nat, rho: Option<real>): int {
    if rho == None || rho.value <= 0.0 then 1
    else if rho.value >= 1.0 then n
    else Ceil(1.0 / (1.0 - rho.value) - 0.000000000001)
  }

  /** `select_moving_block_size`. */
  function SelectBlockSize(n: nat, rho: Option<real>): (b: Option<nat>)
    ensures b.Some? ==> 2 <= b.value <= n / 2
  {
    if n <= LOW_POWER_RUNS_MAX then None
    else
      var uncapped := Larger(2, Larger(CubeRootFrom(n, 0), CorrelationLength(n, rho)));
      Some(if uncapped < n / 2 then uncapped else n / 2)
  }

  /** As long as the cube root of the number of runs and as their correlation, and no single run. */
  ghost predicate CoversCorrelation(n: nat, rho: Option<real>, b: nat) {
    && b >= 2 && b * b * b >= n
    && (rho.Some? && rho.value > 0.0 ==>
          if rho.value < 1.0 then b as real >= 1.0 / (1.0 - rho.value) - 0.000000000001 else b >= n)
  }

  lemma CorrelationCovered(n: nat, rho: Option<real>, b: nat)
    requires b >= 2
    ensures b >= CorrelationLength(n, rho) <==>
      (rho.Some? && rho.value > 0.0 ==>
        if rho.value < 1.0 then b as real >= 1.0 / (1.0 - rho.value) - 0.000000000001 else b >= n)
  {
    if rho.Some? && 0.0 < rho.value < 1.0 {
      var x := 1.0 / (1.0 - rho.value) - 0.000000000001;
      assert Ceil(x) <= b <==> x <= b as real;
    }
  }

  /** The block is at most half of the runs, and under that cap it is the least that covers both lengths. */
  lemma BlockSizeIsLeast(n: nat, rho: Option<real>)
    ensures var b := SelectBlockSize(n, rho);
      && (b == None <==> n <= LOW_POWER_RUNS_MAX)
      && (b.Some? ==>
            && 2 <= b.value <= n / 2
            && forall k: nat :: k < n / 2 ==> (CoversCorrelation(n, rho, k) <==> b.value <= k))
  {
    var b := SelectBlockSize(n, rho);
    if b.Some? {
      var root := CubeRootFrom(n, 0);
      forall k: nat | k < n / 2 ensures CoversCorrelation(n, rho, k) <==> b.value <= k {
        if k >= 2 {
          CorrelationCovered(n, rho, k);
          if root <= k {
            CubeMonotone(root, k);
          } else {
            CubeMonotone(k, root - 1);
          }
        }
      }
    }
  }

  lemma CubeMonotone(a: nat, b: nat)
    requires a <= b
    ensures a * a * a <= b * b * b
    decreases b - a
  {
    if a < b {
      CubeGrows(a);
      CubeMonotone(a + 1, b);
    }
  }

  /** The block size `moving_block_bootstrap_ci` works with, or the error it raises. */
  function EffectiveBlock(
      sqrt: real -> real, values: seq<real>, confidence: real, samples: int, block: Option<int>)
    : Result<nat, StatsError>
  {
    match InvalidArguments(values, confidence, samples)
    case Some(e) => Err(e)
    case None =>
      if |values| <= LOW_POWER_RUNS_MAX then Err(BadBlockSize)
      else
        var b := if block.Some? then block.value else SelectBlockSize(|values|, Diagnose(sqrt, values).lag1).value;
        if 2 <= b <= |values| then Ok(b) else Err(BadBlockSize)
  }

  /** A given block is taken as it is if it spans two runs at least and all at most; otherwise the chosen one is. */
  lemma BlockIsAcceptedIff(
      sqrt: real -> real, values: seq<real>, confidence: real, samples: int, block: Option<int>)
    requires InvalidArguments(values, confidence, samples) == None
    ensures
      var b := EffectiveBlock(sqrt, values, confidence, samples, block);
      && (b.Ok? <==> |values| > 5 && (block.Some? ==> 2 <= block.value <= |values|))
      && (b.Err? ==> b.error == BadBlockSize)
      && (b.Ok? ==> Some(b.value) == if block.Some? then block else SelectBlockSize(|values|, Diagnose(sqrt, values).lag1))
  {
    hide Diagnose, SelectBlockSize;
    BlockSizeIsLeast(|values|, Diagnose(sqrt, values).lag1);
  }

  /** `moving_block_bootstrap_ci`. */
  method MovingBlockBootstrapCi(
      sqrt: real -> real, values: seq<real>, confidence: real, samples: int, draws: Draws, block: Option<int>)
    returns (r: Result<BootstrapCi, StatsError>)
    requires Uniform(draws)
    ensures r ==
      match EffectiveBlock(sqrt, values, confidence, samples, block)
      case Err(e) => Err(e)
      case Ok(b) => Ok(PercentileCi(sqrt, values, confidence, samples, draws, Some(b)))
  {
    var b :- EffectiveBlock(sqrt, values, confidence, samples, block);
    hide ResampledMean, FirstCall, CeilDiv;
    var calls := 0;
    NextFirstCall(0, CeilDiv(|values|, b));
    var means: seq<real> := [];
    for s := 0 to samples
      invariant means == Replicates(values, draws, Some(b), s)
      invariant calls == FirstCall(s, CeilDiv(|values|, b))
    {
      NextFirstCall(s, CeilDiv(|values|, b));
      var mean: real;
      mean, calls := BlockSampleMean(values, draws, calls, b);
      means := means + [mean];
    }
    SortPermutes(means, RealLeq);
    means := Sort(means, RealLeq);
    return Ok(Summarize(sqrt, values, confidence, means, Some(b)));
  }

  /** `autocorrelation_aware_bootstrap_ci`: the way of resampling that the diagnostics call for. */
  function AwareBlock(sqrt: real -> real, values: seq<real>): (b: Option<nat>)
    ensures BlockFits(b, |values|)
  {
    var d := Diagnose(sqrt, values);
    if d.autocorrelationDetected then SelectBlockSize(|values|, d.lag1) else None
  }

  method AutocorrelationAwareBootstrapCi(
      sqrt: real -> real, values: seq<real>, confidence: real, samples: int, draws: Draws)
    returns (r: Result<BootstrapCi, StatsError>)
    requires Uniform(draws)
    ensures r ==
      match InvalidArguments(values, confidence, samples)
      case Some(e) => Err(e)
      case None => Ok(PercentileCi(sqrt, values, confidence, samples, draws, AwareBlock(sqrt, values)))
  {
    var invalid := InvalidArguments(values, confidence, samples);
    if invalid.Some? {
      return Err(invalid.value);
    }
    var diagnostics := Diagnose(sqrt, values);
    var block := SelectBlockSize(|values|, diagnostics.lag1);
    if diagnostics.autocorrelationDetected && block.Some? {
      r := MovingBlockBootstrapCi(sqrt, values, confidence, samples, draws, block);
    } else {
      r := IidPercentileBootstrapCi(sqrt, values, confidence, samples, draws);
    }
  }

  /** `_signed_effect`: positive when the candidate is better. */
  function SignedEffect(baseline: real, candidate: real, direction: Direction): real {
    match direction
    case HigherIsBetter => candidate - baseline
    case LowerIsBetter => baseline - candidate
  }

  /** `_combine_unpaired_diagnostics`. */
  function CombineDiagnostics(b: Diagnostics, c: Diagnostics): Diagnostics {
    Diagnostics(
      if c.n < b.n then c.n else b.n,
      match (b.lag1, c.lag1)
      case (Some(x), Some(y)) => if Absolute(y) > Absolute(x) then Some(y) else Some(x)
      case (Some(x), None) => Some(x)
      case (None, y) => y,
      match (b.ess, c.ess)
      case (Some(x), Some(y)) => Some(Lower(x, y))
      case (Some(x), None) => Some(x)
      case (None, y) => y,
      b.essPreliminary || c.essPreliminary,
      b.autocorrelationDetected || c.autocorrelationDetected)
  }

  function Absolute(x: real): real {
    if x < 0.0 then -x else x
  }

  /** One unpaired replicate, from the generator calls that begin at `first`. */
  function UnpairedReplicate(
      baseline: seq<real>, candidate: seq<real>, direction: Direction, draws: Draws,
      bBlock: Option<nat>, cBlock: Option<nat>, first: nat): real
    requires Uniform(draws) && baseline != [] && candidate != []
    requires BlockFits(bBlock, |baseline|) && BlockFits(cBlock, |candidate|)
  {
    SignedEffect(
      ResampledMean(baseline, draws, first, bBlock),
      ResampledMean(candidate, draws, first + DrawCount(|baseline|, bBlock), cBlock), direction)
  }

  /** The unpaired replicates: each resamples the baseline first, then the candidate. */
  function UnpairedReplicates(
      baseline: seq<real>, candidate: seq<real>, direction: Direction, draws: Draws,
      bBlock: Option<nat>, cBlock: Option<nat>, samples: nat): (r: seq<real>)
    requires Uniform(draws) && baseline != [] && candidate != []
    requires BlockFits(bBlock, |baseline|) && BlockFits(cBlock, |candidate|)
    ensures |r| == samples
  {
    var b, c := DrawCount(|baseline|, bBlock), DrawCount(|candidate|, cBlock);
    seq(samples, s requires 0 <= s < samples =>
      UnpairedReplicate(baseline, candidate, direction, draws, bBlock, cBlock, FirstCall(s, b + c)))
  }

  function LargerBlock(b: Option<nat>, c: Option<nat>): Option<nat> {
    match (b, c)
    case (Some(x), Some(y)) => Some(if x < y then y else x)
    case (Some(x), None) => Some(x)
    case (None, y) => y
  }

  function SummarizeUnpaired(
      sqrt: real -> real, baseline: seq<real>, candidate: seq<real>, direction: Direction,
      confidence: real, v: seq<real>, bBlock: Option<nat>, cBlock: Option<nat>): BootstrapCi
    requires baseline != [] && candidate != [] && v != [] && 0.0 < confidence < 1.0
  {
    BootstrapCi(
      SignedEffect(Mean(baseline), Mean(candidate), direction),
      CiLow(v, confidence), CiHigh(v, confidence), confidence, TwoSidedPValue(v),
      if bBlock.Some? || cBlock.Some? then MovingBlock else IidPercentile,
      if |candidate| < |baseline| then |candidate| else |baseline|,
      CombineDiagnostics(Diagnose(sqrt, baseline), Diagnose(sqrt, candidate)),
      LargerBlock(bBlock, cBlock), bBlock, cBlock)
  }

  /** The interval of the unpaired comparison, as a formula. */
  function UnpairedCi(
      sqrt: real -> real, baseline: seq<real>, candidate: seq<real>, direction: Direction,
      confidence: real, samples: nat, draws: Draws): BootstrapCi
    requires Uniform(draws) && baseline != [] && candidate != []
    requires 0.0 < confidence < 1.0 && samples > 0
  {
    var bBlock, cBlock := AwareBlock(sqrt, baseline), AwareBlock(sqrt, candidate);
    var effects := UnpairedReplicates(baseline, candidate, direction, draws, bBlock, cBlock, samples);
    SortPermutes(effects, RealLeq);
    SummarizeUnpaired(sqrt, baseline, candidate, direction, confidence, Sort(effects, RealLeq), bBlock, cBlock)
  }

  /** `_resampled_mean`. */
  method SampleMean(values: seq<real>, draws: Draws, first: nat, block: Option<nat>) returns (mean: real, next: nat)
    requires Uniform(draws) && values != [] && BlockFits(block, |values|)
    ensures mean == ResampledMean(values, draws, first, block)
    ensures next == first + DrawCount(|values|, block)
  {
    match block
    case None => mean, next := IidSampleMean(values, draws, first);
    case Some(b) => mean, next := BlockSampleMean(values, draws, first, b);
  }

  method SampleUnpairedEffects(
      baseline: seq<real>, candidate: seq<real>, direction: Direction, draws: Draws,
      bBlock: Option<nat>, cBlock: Option<nat>, samples: nat)
    returns (effects: seq<real>)
    requires Uniform(draws) && baseline != [] && candidate != []
    requires BlockFits(bBlock, |baseline|) && BlockFits(cBlock, |candidate|)
    ensures effects == UnpairedReplicates(baseline, candidate, direction, draws, bBlock, cBlock, samples)
  {
    hide ResampledMean, DrawCount, FirstCall;
    effects := [];
    var calls := 0;
    NextFirstCall(0, DrawCount(|baseline|, bBlock) + DrawCount(|candidate|, cBlock));
    for s := 0 to samples
      invariant effects == UnpairedReplicates(baseline, candidate, direction, draws, bBlock, cBlock, s)
      invariant calls == FirstCall(s, DrawCount(|baseline|, bBlock) + DrawCount(|candidate|, cBlock))
    {
      NextFirstCall(s, DrawCount(|baseline|, bBlock) + DrawCount(|candidate|, cBlock));
      var baselineMean, candidateMean: real;
      baselineMean, calls := SampleMean(baseline, draws, calls, bBlock);
      candidateMean, calls := SampleMean(candidate, draws, calls, cBlock);
      effects := effects + [SignedEffect(baselineMean, candidateMean, direction)];
    }
  }

  /** `_unpaired_mean_difference_bootstrap_ci`. */
  method UnpairedMeanDifferenceBootstrapCi(
      sqrt: real -> real, baseline: seq<real>, candidate: seq<real>, direction: Direction,
      confidence: real, samples: nat, draws: Draws)
    returns (r: BootstrapCi)
    requires Uniform(draws) && baseline != [] && candidate != []
    requires 0.0 < confidence < 1.0 && samples > 0
    ensures r == UnpairedCi(sqrt, baseline, candidate, direction, confidence, samples, draws)
  {
    hide AwareBlock, SummarizeUnpaired, UnpairedReplicates, BlockFits, Sort;
    var bBlock, cBlock := AwareBlock(sqrt, baseline), AwareBlock(sqrt, candidate);
    var effects := SampleUnpairedEffects(baseline, candidate, direction, draws, bBlock, cBlock, samples);
    SortPermutes(effects, RealLeq);
    effects := Sort(effects, RealLeq);
    return SummarizeUnpaired(sqrt, baseline, candidate, direction, confidence, effects, bBlock, cBlock);
  }

  /** What a generator call may return for one draw. */
  function Choices(n: nat, block: Option<nat>): nat
    requires BlockFits(block, n)
  {
    if block == None then n else n - block.value + 1
  }

  /** One row of choices, a choice for every value or block of one resample. */
  ghost predicate IsRow(n: nat, block: Option<nat>, row: seq<nat>) {
    && BlockFits(block, n) && |row| == DrawCount(n, block)
    && forall t :: 0 <= t < |row| ==> row[t] < Choices(n, block)
  }

  /** Position of the `i`-th value: chosen by itself, or inside its block, the last of which is cut off. */
  function RowIndex(n: nat, block: Option<nat>, row: seq<nat>, i: nat): (p: nat)
    requires IsRow(n, block, row) && i < n
    ensures p < n
  {
    match block
    case None => row[i]
    case Some(b) =>
      BlocksSuffice(n, b, i);
      row[i / b] + i % b
  }

  /** The mean of the values that a row of choices describes. */
  function ChosenMean(values: seq<real>, block: Option<nat>, row: seq<nat>): real
    requires values != [] && IsRow(|values|, block, row)
  {
    Mean(seq(|values|, i requires 0 <= i < |values| => values[RowIndex(|values|, block, row, i)]))
  }

  lemma BlocksSuffice(n: nat, b: nat, i: nat)
    requires 0 < b && i < n
    ensures i / b < CeilDiv(n, b)
  {
    CeilDivCovers(n, b);
    hide CeilDiv;
    var q, c := i / b, CeilDiv(n, b);
    assert i == q * b + i % b;
    if c <= q {
      MultiplyGrows(c, q, b);
    }
  }

  lemma MultiplyGrows(x: nat, y: nat, b: nat)
    requires x <= y
    ensures x * b <= y * b
  {
    assert (y - x) * b == y * b - x * b;
  }

  /** A generator that returns the rows one after the other. */
  function Playing(rows: seq<seq<nat>>, width: nat): Draws {
    (k: nat, n: nat) =>
      if 0 < width && k / width < |rows| && k % width < |rows[k / width]| && rows[k / width][k % width] < n then
        rows[k / width][k % width]
      else 0
  }

  lemma PlayingPlays(rows: seq<seq<nat>>, width: nat, s: nat, t: nat, n: nat)
    requires s < |rows| && |rows[s]| == width && t < width && rows[s][t] < n
    ensures Playing(rows, width)(FirstCall(s, width) + t, n) == rows[s][t]
  {
    DivMod(s, width, t);
  }

  lemma PlayedMean(rows: seq<seq<nat>>, width: nat, s: nat, from: nat, values: seq<real>, block: Option<nat>, row: seq<nat>)
    requires values != [] && IsRow(|values|, block, row) && s < |rows| && |rows[s]| == width
    requires from + |row| <= width && rows[s][from..from + |row|] == row
    ensures Uniform(Playing(rows, width))
    ensures ResampledMean(values, Playing(rows, width), FirstCall(s, width) + from, block) == ChosenMean(values, block, row)
  {
    hide FirstCall, Mean;
    var draws, n, first := Playing(rows, width), |values|, FirstCall(s, width) + from;
    forall t | 0 <= t < |row| ensures draws(first + t, Choices(n, block)) == row[t] {
      assert rows[s][from..from + |row|][t] == rows[s][from + t];
      PlayingPlays(rows, width, s, from + t, Choices(n, block));
    }
    hide Playing, ResampledMean, ChosenMean;
    UniformPlaying(rows, width);
    RowDrawn(values, draws, first, block, row);
  }

  lemma RowDrawn(values: seq<real>, draws: Draws, first: nat, block: Option<nat>, row: seq<nat>)
    requires Uniform(draws) && values != [] && IsRow(|values|, block, row)
    requires forall t :: 0 <= t < |row| ==> draws(first + t, Choices(|values|, block)) == row[t]
    ensures ResampledMean(values, draws, first, block) == ChosenMean(values, block, row)
  {
    var n := |values|;
    forall i | 0 <= i < n
      ensures ResampleIndex(draws, first, n, block, i) == RowIndex(n, block, row, i)
    {
      RowPosition(draws, first, n, block, row, i);
    }
    hide ResampleIndex, RowIndex, IsRow, Mean;
    assert Resample(values, draws, first, block, n) ==
      seq(n, i requires 0 <= i < n => values[RowIndex(n, block, row, i)]);
  }

  lemma RowPosition(draws: Draws, first: nat, n: nat, block: Option<nat>, row: seq<nat>, i: nat)
    requires Uniform(draws) && IsRow(n, block, row) && i < n
    requires forall t :: 0 <= t < |row| ==> draws(first + t, Choices(n, block)) == row[t]
    ensures ResampleIndex(draws, first, n, block, i) == RowIndex(n, block, row, i)
  {
    hide CeilDiv;
    if block.Some? {
      BlocksSuffice(n, block.value, i);
    }
  }

  /** Every replicate has its own draws: whatever is chosen for each of them, some generator brings it about. */
  lemma AnyReplicatesCanBeDrawn(values: seq<real>, block: Option<nat>, rows: seq<seq<nat>>) returns (draws: Draws)
    requires values != [] && BlockFits(block, |values|)
    requires forall s :: 0 <= s < |rows| ==> IsRow(|values|, block, rows[s])
    ensures Uniform(draws)
    ensures forall s :: 0 <= s < |rows| ==>
      Replicates(values, draws, block, |rows|)[s] == ChosenMean(values, block, rows[s])
  {
    hide ResampledMean, ChosenMean, FirstCall, Playing;
    draws := Playing(rows, DrawCount(|values|, block));
    UniformPlaying(rows, DrawCount(|values|, block));
    forall s | 0 <= s < |rows|
      ensures Replicates(values, draws, block, |rows|)[s] == ChosenMean(values, block, rows[s])
    {
      assert rows[s][0..|rows[s]|] == rows[s];
      PlayedMean(rows, DrawCount(|values|, block), s, 0, values, block, rows[s]);
    }
  }

  lemma UniformPlaying(rows: seq<seq<nat>>, width: nat)
    ensures Uniform(Playing(rows, width))
  {}

  /** So it is for the two arms of an unpaired replicate. */
  lemma AnyUnpairedReplicatesCanBeDrawn(
      baseline: seq<real>, candidate: seq<real>, direction: Direction, bBlock: Option<nat>, cBlock: Option<nat>,
      bRows: seq<seq<nat>>, cRows: seq<seq<nat>>) returns (draws: Draws)
    requires baseline != [] && candidate != [] && BlockFits(bBlock, |baseline|) && BlockFits(cBlock, |candidate|)
    requires |bRows| == |cRows|
    requires forall s :: 0 <= s < |bRows| ==> IsRow(|baseline|, bBlock, bRows[s]) && IsRow(|candidate|, cBlock, cRows[s])
    ensures Uniform(draws)
    ensures forall s :: 0 <= s < |bRows| ==>
      UnpairedReplicates(baseline, candidate, direction, draws, bBlock, cBlock, |bRows|)[s] ==
        SignedEffect(ChosenMean(baseline, bBlock, bRows[s]), ChosenMean(candidate, cBlock, cRows[s]), direction)
  {
    hide ResampledMean, ChosenMean, FirstCall, Playing;
    var b, c := DrawCount(|baseline|, bBlock), DrawCount(|candidate|, cBlock);
    var rows := seq(|bRows|, s requires 0 <= s < |bRows| => bRows[s] + cRows[s]);
    draws := Playing(rows, b + c);
    UniformPlaying(rows, b + c);
    forall s | 0 <= s < |bRows|
      ensures UnpairedReplicates(baseline, candidate, direction, draws, bBlock, cBlock, |bRows|)[s] ==
        SignedEffect(ChosenMean(baseline, bBlock, bRows[s]), ChosenMean(candidate, cBlock, cRows[s]), direction)
    {
      assert rows[s][0..b] == bRows[s] && rows[s][b..b + c] == cRows[s];
      PlayedMean(rows, b + c, s, 0, baseline, bBlock, bRows[s]);
      PlayedMean(rows, b + c, s, b, candidate, cBlock, cRows[s]);
    }
  }

  ghost predicate OneOf<T(!new)>(x: Option<T>, a: Option<T>, b: Option<T>) {
    (x == a || x == b) && (x == None ==> a == None && b == None)
  }

  /** Combined diagnostics are the worse of both arms in every respect. */
  lemma CombinedIsWorse(b: Diagnostics, c: Diagnostics)
    ensures
      var d := CombineDiagnostics(b, c);
      && (d.n == b.n || d.n == c.n) && d.n <= b.n && d.n <= c.n
      && OneOf(d.ess, b.ess, c.ess)
      && (b.ess.Some? ==> d.ess.value <= b.ess.value) && (c.ess.Some? ==> d.ess.value <= c.ess.value)
      && OneOf(d.lag1, b.lag1, c.lag1)
      && (b.lag1.Some? ==> Absolute(d.lag1.value) >= Absolute(b.lag1.value))
      && (c.lag1.Some? ==> Absolute(d.lag1.value) >= Absolute(c.lag1.value))
      && (b.lag1.Some? && Absolute(d.lag1.value) == Absolute(b.lag1.value) ==> d.lag1 == b.lag1)
      && (d.essPreliminary <==> b.essPreliminary || c.essPreliminary)
      && (d.autocorrelationDetected <==> b.autocorrelationDetected || c.autocorrelationDetected)
  {}

  /** An unpaired interval is as long as the shorter arm and names the larger block. */
  lemma UnpairedSizes(
      sqrt: real -> real, baseline: seq<real>, candidate: seq<real>, direction: Direction, confidence: real,
      samples: nat, draws: Draws)
    requires Uniform(draws) && baseline != [] && candidate != [] && 0.0 < confidence < 1.0 && samples > 0
    ensures
      var ci := UnpairedCi(sqrt, baseline, candidate, direction, confidence, samples, draws);
      var b, c := ci.baselineBlockSize, ci.candidateBlockSize;
      && (ci.n == |baseline| || ci.n == |candidate|) && ci.n <= |baseline| && ci.n <= |candidate|
      && OneOf(ci.blockSize, b, c)
      && (b.Some? ==> ci.blockSize.value >= b.value) && (c.Some? ==> ci.blockSize.value >= c.value)
      && (ci.resampling == MovingBlock <==> b.Some? || c.Some?)
  {
    hide Diagnose, AwareBlock, CiLow, CiHigh, TwoSidedPValue, Mean, UnpairedReplicates, CombineDiagnostics, Sort;
  }

  /** Effects of single baseline and candidate runs that bracket an interval. */
  ghost predicate EffectsBracket(b: seq<real>, c: seq<real>, direction: Direction, low: real, high: real) {
    && low <= high
    && (exists i, j :: 0 <= i < |b| && 0 <= j < |c| && SignedEffect(b[i], c[j], direction) <= low)
    && (exists i, j :: 0 <= i < |b| && 0 <= j < |c| && high <= SignedEffect(b[i], c[j], direction))
  }

  lemma EffectInRange(
      baseline: seq<real>, candidate: seq<real>, direction: Direction, draws: Draws,
      bBlock: Option<nat>, cBlock: Option<nat>, first: nat, bLow: real, bHigh: real, cLow: real, cHigh: real)
    requires Uniform(draws) && baseline != [] && candidate != []
    requires BlockFits(bBlock, |baseline|) && BlockFits(cBlock, |candidate|)
    requires forall i :: 0 <= i < |baseline| ==> bLow <= baseline[i] <= bHigh
    requires forall i :: 0 <= i < |candidate| ==> cLow <= candidate[i] <= cHigh
    ensures
      var e := UnpairedReplicate(baseline, candidate, direction, draws, bBlock, cBlock, first);
      match direction
      case HigherIsBetter => cLow - bHigh <= e <= cHigh - bLow
      case LowerIsBetter => bLow - cHigh <= e <= bHigh - cLow
  {
    ReplicateInRange(baseline, draws, first, bBlock, bLow, bHigh);
    ReplicateInRange(candidate, draws, first + DrawCount(|baseline|, bBlock), cBlock, cLow, cHigh);
  }

  /** The unpaired interval lies between the effects of two actual run combinations. */
  lemma UnpairedIntervalBracketed(
      sqrt: real -> real, baseline: seq<real>, candidate: seq<real>, direction: Direction,
      confidence: real, samples: nat, draws: Draws)
    requires Uniform(draws) && baseline != [] && candidate != []
    requires 0.0 < confidence < 1.0 && samples > 0
    ensures var ci := UnpairedCi(sqrt, baseline, candidate, direction, confidence, samples, draws);
      EffectsBracket(baseline, candidate, direction, ci.ciLow, ci.ciHigh)
  {
    hide DrawCount, AwareBlock, Diagnose, Mean, CiLow, CiHigh, TwoSidedPValue, CombineDiagnostics,
      UnpairedReplicates, Uniform, Ascending, Sorting.Sort;
    var bBlock, cBlock := AwareBlock(sqrt, baseline), AwareBlock(sqrt, candidate);
    var effects := UnpairedReplicates(baseline, candidate, direction, draws, bBlock, cBlock, samples);
    var v := Sort(effects, RealLeq);
    SortedIsAscending(effects);
    SortPermutes(effects, RealLeq);
    IntervalOrdered(v, confidence);
    SortMembers(effects, RealLeq);
    var i, j, i', j' := EffectsBetween(baseline, candidate, direction, draws, bBlock, cBlock, samples);
    assert v[0] in v && v[|v| - 1] in v;
  }

  /** The run combinations with the least and the greatest effect bound every replicate. */
  lemma EffectsBetween(
      baseline: seq<real>, candidate: seq<real>, direction: Direction, draws: Draws,
      bBlock: Option<nat>, cBlock: Option<nat>, samples: nat) returns (i: nat, j: nat, i': nat, j': nat)
    requires Uniform(draws) && baseline != [] && candidate != []
    requires BlockFits(bBlock, |baseline|) && BlockFits(cBlock, |candidate|)
    ensures i < |baseline| && j < |candidate| && i' < |baseline| && j' < |candidate|
    ensures forall x :: x in UnpairedReplicates(baseline, candidate, direction, draws, bBlock, cBlock, samples) ==>
      SignedEffect(baseline[i], candidate[j], direction) <= x <= SignedEffect(baseline[i'], candidate[j'], direction)
  {
    hide DrawCount, UnpairedReplicate, FirstCall, Uniform;
    var effects := UnpairedReplicates(baseline, candidate, direction, draws, bBlock, cBlock, samples);
    var bLow, bHigh := Extremes(baseline);
    var cLow, cHigh := Extremes(candidate);
    var b, c := DrawCount(|baseline|, bBlock), DrawCount(|candidate|, cBlock);
    i, j, i', j' := bHigh, cLow, bLow, cHigh;
    if direction.LowerIsBetter? {
      i, j, i', j' := bLow, cHigh, bHigh, cLow;
    }
    forall x | x in effects
      ensures SignedEffect(baseline[i], candidate[j], direction) <= x <= SignedEffect(baseline[i'], candidate[j'], direction)
    {
      var s :| 0 <= s < samples && effects[s] == x;
      EffectInRange(baseline, candidate, direction, draws, bBlock, cBlock, FirstCall(s, b + c),
        baseline[bLow], baseline[bHigh], candidate[cLow], candidate[cHigh]);
    }
  }
}
