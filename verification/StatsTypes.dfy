/** Records and results exchanged by the statistics functions. */
module StatsTypes {
  import opened Wrappers

  datatype Direction = HigherIsBetter | LowerIsBetter
  datatype PairOrder = BaselineFirst | CandidateFirst
  datatype PairQuality = Good | Suspect | Unknown
  datatype Verdict = SignificantImprovement | SignificantRegression | Inconclusive | NoDifference
  datatype ExploratorySignal = SuggestiveImprovement | SuggestiveRegression | NoSignal
  datatype BootstrapMethod = IidPercentile | MovingBlock

  /** One exception the statistics code raises. */
  datatype StatsError =
    | UnsupportedScreenMethod | BadFalseDiscoveryRate
    | BadConfidenceLevel | BadBootstrapSamples | BadTolerance | BadBlockSize
    | EmptyScores | MissingScore | MixedObjectiveDirections | DuplicatePairKey | EndsBeforeStart
    | DirectionMismatch | BadPracticalThreshold
    | InconsistentResult

  /**
   One benchmark run.  Timestamps are microseconds; the fields that the code reads defensively
   (`getattr(record, name, None)`) are optional.
   */
  datatype RunRecord = RunRecord(
    measured: bool,
    validForScoring: bool,
    score: Option<real>,
    direction: Direction,
    runIndex: Option<int>,
    startedAt: Option<int>,
    endedAt: Option<int>,
    durationSec: Option<real>,
    pairKey: Option<string>,
    pairOrder: Option<PairOrder>,
    pairTimeGapSec: Option<real>,
    measurementPlanId: Option<string>,
    sourceCommit: Option<string>,
    benchmarkId: Option<string>,
    objectiveId: Option<string>)

  /** Autocorrelation diagnostics of one score sequence. */
  datatype Diagnostics = Diagnostics(
    n: nat,
    lag1: Option<real>,
    ess: Option<real>,
    essPreliminary: bool,
    autocorrelationDetected: bool)

  datatype BootstrapCi = BootstrapCi(
    pointEstimate: real,
    ciLow: real,
    ciHigh: real,
    confidenceLevel: real,
    pValue: real,
    resampling: BootstrapMethod,
    n: nat,
    diagnostics: Diagnostics,
    blockSize: Option<nat>,
    baselineBlockSize: Option<nat>,
    candidateBlockSize: Option<nat>)

  /** The verdict of one comparison of a candidate with its baseline. */
  datatype StatisticalResult = StatisticalResult(
    objectiveDirection: Direction,
    pointEstimate: real,
    relativeEffectPct: Option<real>,
    relativeCiLowPct: Option<real>,
    relativeCiHighPct: Option<real>,
    ciLow: real,
    ciHigh: real,
    confidenceLevel: real,
    resampling: BootstrapMethod,
    pValue: Option<real>,
    verdict: Verdict,
    significantSingleComparison: bool,
    adjustedForMultipleTesting: bool,
    nMeasured: nat,
    nValid: nat,
    nInvalid: nat,
    baselineNValid: nat,
    candidateNValid: nat,
    ess: Option<real>,
    essPreliminary: bool,
    lag1: Option<real>,
    autocorrelationDetected: bool,
    iidAssumptionValid: bool,
    lowPower: bool,
    recommendMoreRuns: bool,
    paired: bool,
    pairCount: nat,
    pairQuality: PairQuality,
    blockSize: Option<nat>,
    baselineBlockSize: Option<nat>,
    candidateBlockSize: Option<nat>,
    exploratorySignal: ExploratorySignal,
    requiresConfirmation: bool,
    provenanceComplete: bool)
}
