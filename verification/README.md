# Compiler-tuning agent: verified models of its statistics, trace, lock, index and search

The agent tunes compiler options: it measures runs, decides by statistics whether a candidate is
better, records what it does in an append-only trace, and searches for the next candidate.  This
project models the parts where a mistake would be silent and proves what they promise.
`dafny verify dfyconfig.toml` checks all of it.

Numbers that are floating point in the program are `real` here, so rounding is outside every claim.
`math.sqrt` is a function parameter constrained by `IsSquareRoot`; the random generator is a function
`Draws` from call number and range to a value inside the range; sha256 is taken to be injective, so
what is hashed stands for the hash.  Loops of the program are loops here, objects that change are
classes, and each such method is tied to a function about which the laws are proved.

## What is modelled

**Statistical acceptance** (`FamilyScreen`, `RealSeq`, `Autocorrelation`, `Quantile`, `Bootstrap`,
`RecordOrder`, `Pairing`, `Comparison`, `Acceptance`, `SteadyPairs`, `Verdicts`, `ResultFields`,
`ComparisonErrors`, `PairChecks`, `Mirror`).  Measured runs are ordered, paired by key and judged;
autocorrelation gives an effective sample size; iid or moving-block resampling gives a percentile
interval and a two-sided p-value; gates turn them into a verdict; a step-up screen controls a family
of verdicts; an accept gate decides.  `Acceptance.AcceptedMeansImproved` goes from the runs to the
gate: an accepted result means enough independent data, sound pairing, uniform provenance, a p-value
below the tail bound and some real pair of runs that improved by more than the threshold;
`Acceptance.AcceptedInFamily` adds the bound of the family it was screened in.  Their partners
`Acceptance.SteadyImprovementIsAcceptedIff` and `SteadyPairs.PairedImprovementIsAcceptedIff` show
that the gates let clean improvements through, unpaired and paired.  `Verdicts.VerdictIff`
characterises all four verdicts, and `Mirror.ReversedComparisonIsMirrored` shows that improvement
and regression are treated alike.

**Trace cleanup** (`TraceBytes`, `LineRanges`, `TraceRewrite`, `CleanPlan`, `CleanPermission`,
`CleanSafety`).  A plan is computed from unlocked readings of the trace, the checkpoint and the
lock, turned into coalesced byte ranges, revalidated and executed as a chunked rewrite.  The rewrite
is proved to be a line filter, the plan to be unique, its execution to be permitted exactly by what
was read, and a revalidated plan to remove exactly what is removable at that moment, provided the
trace has only grown since planning began.

**Append, checkpoint and lock** (`AppendLog`, `TraceCheckpoint`, `WorkspaceLock`, `CleanupProtocol`).
The first two prove, over all runs of partial writes, failures, crashes and restarts, what the trace
file consists of and how the line counters relate to it.  The lock class shows when a held lock names
its holder.  `CleanupProtocol` composes cleaning with the lock: several processes, each step of taking,
naming, probing and releasing the lock, appends, checkpoints, planning and execution in small steps,
and a crash at any point.

**Trial index** (`TrialIndex`).  A table over immutable record files, with a staleness test by count
and modification times.

**Candidates and search** (`CandidateIdentity`, `CandidateEquality`, `SearchCandidates`,
`SearchStream`, `SearchRun`, `FailureClassifier`, `ClassifierOrder`, `ClassifierReport`).
Normalisation and canonical form of option combinations, the full agent's candidate stream, checks
and run, and the merging of failure evidence.

`Wrappers`, `FiniteSets`, `Sorting` and `StatsTypes` hold what the others share.

## Where the code does less than one would expect

Each is proved, most with a concrete input or run and with the exact condition beside it.

- `compare_run_records` raises when the percentile interval does not contain the point estimate and
  the baseline mean is not zero: `Comparison.EstimateOutsideIntervalRaises`, and exactly then:
  `Comparison.ComparisonSucceedsIff`.
- A pairing that counts as full can leave valid runs out, those without a pair key
  (`Comparison.UnkeyedRunIsLeftOut`), and covers all of them exactly when every valid run has one:
  `Comparison.PairingCoversEveryRunIff`.  The baseline runs left out still set the mean that the threshold
  is measured by.  One of them undoes the acceptance of ten good pairs in `SteadyPairs.OutlierUndoesTenPairs`
  and can undo any other: `Acceptance.UnkeyedRunUndoesAcceptance`; exactly when such runs do:
  `Acceptance.UnkeyedRunsDecideIff`.
- A session whose first event was written but not yet checkpointed when it died is refused every
  append after resuming at count 0: `TraceCheckpoint.OrphanedFirstEventBlocks`.  When a session may append
  at all is `TraceCheckpoint.SessionMayAppendIff`.
- An append whose sync raises has written its line without counting it; from then on, as after any
  orphaned append, the session reports wrong line numbers: `TraceCheckpoint.FailedSyncMisnumbers`, and
  exactly then: `TraceCheckpoint.ReportedNumberIsTrueIff`.
- A cleanup leaves the checkpoint's line count alone and can put it ahead of the trace:
  `CleanSafety.CleanOvertakesTheCheckpoint`, and exactly when: `CleanSafety.CleaningCanOvertakeTheCheckpoint`.
- Size and line count do not notice another cleanup followed by appends of the same length:
  `CleanSafety.InterveningCleanDefeatsRevalidation`.  Without another cleanup they are enough:
  `CleanSafety.CommittedCleanIsExact`, `CleanupProtocol.CommittedCleansAreExact`.
- A forced cleanup protects the session that held the lock when it was planned, not the one that holds
  it now: `CleanSafety.SwitchedSessionIsNotProtected`.  A session, this one or any other, keeps all its events
  exactly when none of them is removable: `CleanSafety.SessionStaysIff`.
- A forced cleanup that finds the lock busy trusts the name in the file.  While another process has the
  kernel's lock but not yet written its name, or probes, that name may be the caller's own old one, and
  an event is lost: `CleanupProtocol.OvertakenCleanupLosesAnEvent`.  There is no other window:
  `CleanupProtocol.DisorderNeedsTheWindow`.
- A short write of the holder goes unnoticed and leaves a held lock that names nobody:
  `CleanupProtocol.HeldWithoutName`, and exactly then: `CleanupProtocol.LockNamesItsHolder`.
- A record deleted and another written within one clock tick of the index go unnoticed:
  `TrialIndex.SameTickIsMissed`, and exactly that: `TrialIndex.FreshIndexIsExactIff`.
- The search moves around its best trial, but a score of zero counts as none, so that a negative one is
  preferred to it: `SearchCandidates.ZeroLosesToNegative`, and exactly when: `SearchCandidates.CenterIsBestIff`.
- A customised literal that spells a default value again makes the candidate hash depend on the order
  of the options: `CandidateEquality.AliasIsAmbiguous`, and exactly then: `CandidateEquality.IdentityIsExactIff`,
  `CandidateEquality.PayloadIsExactIff`.

## Model

| member | source | states |
|---|---|---|
| FamilyScreen.FamilyScreen | src/agent/stats_core.py:475-506 | the selection is the largest set of significant improvements whose p-values are all at most q times its size over the number of results; ties included, errors exactly for other methods or q outside (0, 1] |
| FamilyScreen.StepUpIsMaximal | src/agent/stats_core.py:493-503 | every self-consistent set lies within the ranks up to the last passing one |
| FamilyScreen.SelectionIsUnique | src/agent/stats_core.py:475-506 | a family and a rate have one largest self-consistent selection |
| FamilyScreen.SelectionGrowsWithQ | src/agent/stats_core.py:475-506 | a larger rate never drops a selected result |
| FamilyScreen.SelectionCommutesWithRearrangement | src/agent/stats_core.py:475-506 | permuting the family permutes the selection |
| RealSeq.CauchySchwarz | src/agent/stats_core.py:1009-1027 | the square of a dot product is at most the product of the sums of squares, for all sequences |
| Autocorrelation.LagClampIsNoOp | src/agent/stats_core.py:993-1027 | for every score sequence and lag the clamp to [-1, 1] never acts: the result is covariation over root of variation |
| Autocorrelation.UndefinedIffConstant | src/agent/stats_core.py:993-1027 | no autocorrelation exactly when the lag leaves nothing or one of the two segments is constant |
| Autocorrelation.Lag1EssBounds | src/agent/stats_core.py:1099-1117 | the lag-1 effective sample size lies in [0, n] and is n(1-rho)/(1+rho) where that is defined |
| Autocorrelation.AcfEssBounds | src/agent/stats_core.py:1065-1096 | the summed-lag estimate is n over one plus twice the positive sum and lies in [n/21, n]; its guards never act |
| Autocorrelation.AcfEssMeans | src/agent/stats_core.py:1065-1096 | the sum runs over the positive autocorrelations from lag 1 up to the first that is not, at most to lag 10 and half the sample |
| Autocorrelation.AcfEffectiveSampleSize | src/agent/stats_core.py:1065-1096 | the accumulating loop with its early stop computes that estimate |
| Autocorrelation.DiagnosticsAreSound | src/agent/stats_core.py:917-984 | whatever the scores, the diagnosis has 0 <= ESS <= n and a defined autocorrelation in [-1, 1] |
| Autocorrelation.AutocorrelationShrinksEss | src/agent/stats_core.py:917-984 | detected autocorrelation leaves at most 7/13 of the sample |
| Quantile.QuantileMonotone | src/agent/stats_core.py:1535-1548 | interpolated quantiles grow with q, from the least to the greatest value |
| Quantile.IntervalOrdered | src/agent/stats_core.py:572-585 | the percentile interval is ordered and within the values |
| Quantile.ExclusionCapsPValue | src/agent/stats_core.py:1535-1561 | an interval on one side of zero forces p <= 2(ceil((B-1)alpha/2)+1)/(B+1) |
| Quantile.SmallPValueForcesExclusion | src/agent/stats_core.py:1535-1561 | conversely, for two or more samples, a p-value within the bound of the rounded-down rank puts the interval on one side of zero |
| Quantile.ExactDuality | src/agent/stats_core.py:1535-1561 | with a whole tail rank and two or more samples interval and p-value are one test |
| Quantile.DefaultSignificance | src/agent/stats_core.py:1535-1561 | at 2000 samples and 95% exclusion of zero means p <= 102/2001 |
| Bootstrap.IidSampleMean | src/agent/stats_core.py:1496-1519 | the draw-and-add loop is the mean of n values taken from the input |
| Bootstrap.BlockSampleMean | src/agent/stats_core.py:1496-1519 | the block loop, cut off in the last block, is the mean of exactly n values taken from the input |
| Bootstrap.CeilDivIsLeast | src/agent/stats_core.py:1506-1519 | a resample takes as many blocks as cover its values and no more |
| Bootstrap.BlocksAreRuns | src/agent/stats_core.py:1506-1519 | inside a block consecutive draws are consecutive positions |
| Bootstrap.AnyReplicatesCanBeDrawn | src/agent/stats_core.py:540-651 | no generator call serves two draws: any choice of values, or of block starts, for every replicate is what some generator brings about |
| Bootstrap.AnyUnpairedReplicatesCanBeDrawn | src/agent/stats_core.py:713-797 | so it is for baseline and candidate of every unpaired replicate together |
| Bootstrap.BlockSizeIsLeast | src/agent/stats_core.py:692-710 | no block up to five runs; otherwise at most n/2 and, below that cap, the least size of two or more that reaches the cube root of n and the correlation length |
| Bootstrap.ReplicateInRange | src/agent/stats_core.py:1496-1519 | every replicate lies between any bounds of the scores |
| Bootstrap.PercentileIntervalWithin | src/agent/stats_core.py:540-651 | least score <= ci_low <= ci_high <= greatest score, for both kinds of resampling |
| Bootstrap.IidPercentileBootstrapCi | src/agent/stats_core.py:540-585 | the resampling loop and sort give the interval and p-value of the replicates, errors exactly for bad arguments |
| Bootstrap.MovingBlockBootstrapCi | src/agent/stats_core.py:588-651 | the same for blocks, with the chosen or the given block size checked against n |
| Bootstrap.AutocorrelationAwareBootstrapCi | src/agent/stats_core.py:654-689 | blocks exactly when autocorrelation was detected and a block size exists |
| Bootstrap.UnpairedMeanDifferenceBootstrapCi | src/agent/stats_core.py:713-797 | two interleaved resamplings give the interval of the mean difference |
| Bootstrap.BlockIsAcceptedIff | src/agent/stats_core.py:588-651 | a given block size is used exactly if it lies between 2 and n and there are more than five values |
| Bootstrap.CombinedIsWorse | src/agent/stats_core.py:879-915 | combined diagnostics take the smaller size and ESS, the larger autocorrelation and either flag |
| Bootstrap.UnpairedSizes | src/agent/stats_core.py:713-797 | an unpaired interval has the size of the shorter arm and the larger block |
| Bootstrap.UnpairedIntervalBracketed | src/agent/stats_core.py:713-797 | the unpaired interval lies between the smallest and largest difference of single runs |
| RecordOrder.InOrderSorts | src/agent/stats_core.py:1127-1158 | ordering keeps the records and sorts them by start |
| RecordOrder.InOrderMeans | src/agent/stats_core.py:1141-1158 | of any two runs the earlier one started first, or as early with no greater index; runs without a start follow by index, those without either come last |
| RecordOrder.OrderingIsIdempotent | src/agent/stats_core.py:1120-1158 | ordering ordered records changes nothing |
| RecordOrder.OrderForgetsListing | src/agent/stats_core.py:1127-1158 | with distinct starts the order does not depend on the input's listing |
| RecordOrder.NeighboursSuffice | src/agent/stats_core.py:1320-1339 | the scan of neighbours reports an overlap exactly when some run, adjacent or not, runs into a later one, whatever times are missing |
| RecordOrder.ScanMissesNoOverlap | src/agent/stats_core.py:1320-1339 | when it reports none, no two runs with start and end share more than the tolerance |
| RecordOrder.ScanIsExactForLongRuns | src/agent/stats_core.py:1320-1339 | for runs longer than the tolerance it reports exactly the sharing of time |
| Pairing.KeyedRecordsAreExact | src/agent/stats_core.py:1242-1252 | the dictionary holds exactly the valid keyed records, once each; a repeated key or missing score raises |
| Pairing.FullPairingMatchesEveryKey | src/agent/stats_core.py:1211-1239 | pairing is full exactly when both arms have the same keys |
| Pairing.UnkeyedRunsAreInvisible | src/agent/stats_core.py:1211-1252 | valid or not, runs without a key anywhere in either arm change neither the pairs nor the partial flag, nor whether pairing raises |
| Pairing.JudgePairs | src/agent/stats_core.py:1261-1300 | the loop over pairs yields the quality of the whole pairing, or its first error |
| Pairing.GoodQualityMeansEveryPair | src/agent/stats_core.py:1261-1300 | quality is good exactly when every single pair passes |
| PairChecks.GoodIff | src/agent/stats_core.py:1261-1420 | a pair is good exactly if its runs agree on the order, some gap is known, none contradicts the starts, no run ends before it starts, and every known gap is at most five minutes and at most five seconds or five times every known duration; it is unknown exactly without a gap, and in conflict exactly when contradicted |
| PairChecks.AllPass | src/agent/stats_core.py:1261-1300 | when no pair is suspect or raises, one unknown gap makes the quality unknown, otherwise it is good |
| PairChecks.FirstStopDecides | src/agent/stats_core.py:1261-1300 | otherwise the first such pair decides alone: its error, or suspect with its conflict |
| PairChecks.SomethingStops | src/agent/stats_core.py:1267-1298 | either every pair passes or some pair is the first that does not |
| PairChecks.OverlapIff | src/agent/stats_core.py:1261-1265 | an overlap comes before all pairs and is reported exactly when found |
| PairChecks.FailsIff | src/agent/stats_core.py:1261-1370 | it raises exactly for a run that ends before it starts, when the checks get that far |
| PairChecks.DurationIsLeast | src/agent/stats_core.py:1303-1370 | a pair's duration is the least of all that its runs report or show |
| Pairing.GoodPairIsClose | src/agent/stats_core.py:1261-1420 | a passing pair has verified close times, no contradicting sources and a bounded gap |
| Verdicts.VerdictIff | src/agent/stats_core.py:264-464 | of every result: inconclusive exactly without enough well-paired data, otherwise improvement, regression or no difference exactly by the interval lying above, below or around zero |
| Verdicts.RegressionIsReal | src/agent/stats_core.py:264-464 | a regression has enough data, an interval below zero, a capped p-value and some pair or two runs with a worse candidate |
| Verdicts.SteadyVerdict | src/agent/stats_core.py:264-464 | constant unkeyed scores get the verdict of their difference exactly from ten runs per arm on, whatever is drawn |
| Verdicts.SteadyPairsVerdict | src/agent/stats_core.py:264-464 | constant scores in pairs get it exactly from ten good and full pairs on |
| Mirror.ReversedComparisonIsMirrored | src/agent/stats_core.py:264-464 | under the opposite objective every signed field, the verdict and the exploratory signal are mirrored, and p-value, diagnostics and the rest stay |
| ResultFields.CountsAreTrue | src/agent/stats_core.py:264-464 | all counts are those of the runs handed in: valid ones per arm, invalid ones together, pairs the keys common to both arms |
| ResultFields.EstimateIsDifferenceOfMeans | src/agent/stats_core.py:264-464 | the point estimate is the signed difference of plain means, of the paired runs when paired, and each percentage is of the absolute baseline mean, or undefined around zero |
| ResultFields.ResamplingIff | src/agent/stats_core.py:654-797 | blocks are resampled exactly where autocorrelation was detected in more than five values, per arm when unpaired, and the reported size is the larger |
| ResultFields.FlagsAreTrue | src/agent/stats_core.py:264-464 | autocorrelation means a lag-1 value above 0.3 (in either arm when unpaired); more runs are recommended exactly without power or with a coefficient of variation above the threshold |
| ResultFields.VariationIsDefinedIff | src/agent/stats_core.py:196-232 | the coefficient of variation, defined exactly away from a zero mean, squared and scaled back gives the sum of squared deviations |
| ResultFields.ExploratoryIff | src/agent/stats_core.py:264-464 | an exploratory signal exactly on long autocorrelated unpaired runs with an effect of one per cent and an interval on one side of zero |
| ResultFields.DecisionIsDeserved | src/agent/stats_core.py:509-537 | every decision of the gate is the first requirement that data, pairing, interval, screen, confirmation, provenance or threshold fail |
| ComparisonErrors.RefusedIff | src/agent/stats_core.py:264-360 | each error of a comparison's inputs has exactly its cause in the runs, in the order of the checks |
| Comparison.StatisticalVerdict | src/agent/stats_core.py:800-876 | the branches with their flags are one verdict function; power and more-runs flags exactly when inconclusive or noisy |
| Comparison.Compare | src/agent/stats_core.py:264-464 | the whole comparison, with every error it raises |
| Comparison.PairingCoversEveryRunIff | src/agent/stats_core.py:1211-1258 | the pairs cover every valid run of both arms if and only if the pairing is not partial and every valid run has a key |
| Comparison.UnkeyedRunIsLeftOut | src/agent/stats_core.py:1211-1258 | one keyed pair and one valid unkeyed run: paired in full, without the run |
| Comparison.CountsAreConserved | src/agent/stats_core.py:264-464 | counts of the result add up, ESS <= n_valid (the smaller arm when unpaired), block sizes >= 2, interval ordered |
| Comparison.VerdictIsDecisionGrade | src/agent/skills/result_schema.py:235-291 | significance implies decision grade, and an exploratory signal only with an inconclusive verdict |
| Comparison.SchemaIffEstimateInInterval | src/agent/skills/result_schema.py:235-291 | the result validates exactly when the estimate lies in its interval or no relative effect is reported |
| Comparison.ComparisonSucceedsIff | src/agent/stats_core.py:264-464 | the comparison returns exactly when its inputs pass and that holds |
| Comparison.EstimateOutsideIntervalRaises | src/agent/stats_core.py:264-464 | three runs and a one-sample bootstrap for which it raises |
| Comparison.ComparisonForgetsListing | src/agent/stats_core.py:264-464 | with distinct starts the result does not depend on how the runs are listed |
| Acceptance.AcceptedMeansImproved | src/agent/stats_core.py:509-537 | an accepted comparison has screened, confirmed, sufficient, well-paired, uniform data, a bounded p-value, and some runs that improved beyond the threshold |
| Acceptance.SteadyImprovementIsAcceptedIff | src/agent/stats_core.py:264-537 | conversely, steady unkeyed runs under one plan that improve beyond the threshold are accepted if and only if each arm has ten measured runs, whatever is drawn |
| Acceptance.PairedAcceptanceIff | src/agent/stats_core.py:509-537 | after a significant verdict acceptance is complete provenance and an interval beyond the threshold of the mean of all baseline runs |
| Acceptance.AcceptedInFamily | src/agent/stats_core.py:475-537 | with the screen's own selection an accepted result has p <= q k / m, for k selected of m results, besides its tail bound |
| Acceptance.SteadyPairsAreAcceptedIff | src/agent/stats_core.py:264-537 | constant scores in pairs are accepted, whatever is drawn, if and only if there are ten pairs, full and good, under one plan, beyond the threshold |
| SteadyPairs.PairedInFull | src/agent/stats_core.py:1211-1252 | two arms with the same distinct keys, each in the order of its runs, are paired run by run and in full |
| SteadyPairs.SeparateRunsDoNotOverlap | src/agent/stats_core.py:1320-1339 | the scan finds nothing among runs of which each two are apart in time |
| SteadyPairs.PairedWell | src/agent/stats_core.py:1261-1420 | pairs in one order that report no gap, start within five seconds and are apart in time from all other runs have good quality |
| SteadyPairs.PairedImprovementIsAcceptedIff | src/agent/stats_core.py:264-537 | from the runs: keyed runs of constant score taken one after the other are compared in pairs and accepted if and only if there are ten pairs under one plan beyond the threshold |
| SteadyPairs.TurnsAreAcceptedIff | src/agent/stats_core.py:264-537 | n pairs that start one second apart under one plan: accepted exactly for n >= 10, for every sample |
| SteadyPairs.OutlierUndoesTenPairs | src/agent/stats_core.py:264-537 | ten pairs scoring 1.0 and 2.0 are accepted at 5 per cent and no longer with an unkeyed baseline run of 210.0, interval and verdict unchanged |
| Acceptance.UnkeyedRunsDecideIff | src/agent/stats_core.py:264-537 | unkeyed runs added or removed anywhere in either arm keep interval and verdict; acceptance survives if and only if the interval exceeds the threshold of the new mean and provenance is uniform |
| Acceptance.UnkeyedRunUndoesAcceptance | src/agent/stats_core.py:264-537 | for every accepted paired comparison with a positive threshold there is one more unkeyed baseline run that undoes the acceptance |
| Acceptance.ImprovementIsReal | src/agent/stats_core.py:264-464 | an interval beyond the threshold means some pair, or some two runs, improved beyond it |
| Acceptance.OneSidedIntervalCapsPValue | src/agent/stats_core.py:264-464 | an interval on one side of zero bounds the reported p-value |
| Acceptance.ProvenanceIsUniform | src/agent/stats_core.py:1480-1493 | provenance is complete exactly when all runs share one set of hashes |
| Acceptance.GoodPairingIsSound | src/agent/stats_core.py:1211-1300 | a good full pairing pairs every key of both arms closely, and no paired run runs into a later one |
| TraceBytes.SplitRecords | src/agent/fs_memory.py:1860-1911 | splitting gives back the records written one after the other and what follows them |
| TraceBytes.SplitOfConcat | src/agent/fs_memory.py:1860-1911 | splitting inverts concatenation of records |
| TraceBytes.DecodeLinesIff | src/agent/fs_memory.py:1860-1911 | reading succeeds exactly when every line is bounded, terminated and decodable, and keeps their order |
| TraceBytes.LoadableMeansRecords | src/agent/fs_memory.py:1860-1911 | a file that loads is a sequence of whole records |
| TraceBytes.ScanTraceLines | src/agent/trace_cleanup.py:635-667 | the two-pass scan numbers and locates the lines or reports that the trace changed |
| TraceBytes.ScanLocates | src/agent/trace_cleanup.py:635-667 | every byte range of the scan holds exactly its line |
| TraceBytes.ScanSeesNoAppend | src/agent/trace_cleanup.py:635-667 | a scan beside an appending writer succeeds exactly when nothing was appended in between |
| AppendLog.TraceFile.WriteAll | src/agent/fs_memory.py:2189-2196 | partial writes add up to the line or to a prefix of it, ended by a zero write |
| AppendLog.TraceFile.Append | src/agent/fs_memory.py:1782-1845 | one append: refused without a change, complete, torn, or raised by the sync behind the complete line; a reported offset is where the line begins |
| AppendLog.FileIsLinesAndTail | src/agent/fs_memory.py:1782-1845 | over every run of attempts and crashes the file is the completed lines in order and at most one torn tail |
| AppendLog.ShortWritesAddUp | src/agent/fs_memory.py:2189-2196 | positive short writes add up, one byte each at least |
| AppendLog.ZeroEndsWrites | src/agent/fs_memory.py:2189-2196 | a write of zero bytes ends them |
| AppendLog.BeginsIff | src/agent/fs_memory.py:1782-1835 | an append begins exactly for a line that is small enough, on a file without a torn end, with a number that is 1 exactly on an empty file |
| AppendLog.ReportedNumber | src/agent/fs_memory.py:1816-1829 | a reported line number is the expected one, and 1 exactly for the first line |
| AppendLog.OffsetLocatesLine | src/agent/fs_memory.py:1814-1841 | over all runs the reported offset is the length of the lines completed before, and the line is found there whatever is attempted later |
| AppendLog.TornTailStopsAppends | src/agent/fs_memory.py:1800-1845 | once there is a torn tail no later attempt changes the file |
| AppendLog.ReadBack | src/agent/fs_memory.py:1848-1911 | a full read refuses a torn file and otherwise returns the completed lines' events |
| AppendLog.ReadableCount | src/agent/trace.py:76-79 | the number of events of a readable file is its number of line feeds |
| TraceCheckpoint.ReconciledIsActual | src/agent/trace.py:207-231 | reconciling fails exactly when the checkpoint is ahead and otherwise yields the actual count |
| TraceCheckpoint.TraceSessionWriter.ForCheckpoint | src/agent/trace.py:270-304 | a session starts at the recorded count, or at a full count when none is recorded |
| TraceCheckpoint.TraceSessionWriter.Append | src/agent/trace.py:319-335 | the counter moves exactly when the whole line was written and synced |
| TraceCheckpoint.TraceCheckpointWriter.AppendAndCheckpoint | src/agent/trace.py:601-629 | append, count and checkpoint in this order; on any failure checkpoint and memory keep the old count |
| TraceCheckpoint.StepKeepsAccount | src/agent/trace.py:207-231 | every step keeps the account: file = recorded + orphaned + pending lines |
| TraceCheckpoint.EveryRunIsAccounted | src/agent/trace.py:235-335 | the account holds after every run of sessions, appends, failed syncs, saves, crashes and reconciliations |
| TraceCheckpoint.CountsAreOrdered | src/agent/trace.py:82-158 | recorded <= writer <= actual in every run; the checkpoint is never ahead; the gap is the orphaned appends |
| TraceCheckpoint.SaveMovesForward | src/agent/trace.py:82-104 | over all runs a session's count may be saved over the recorded one, and over a given one unless that is larger |
| TraceCheckpoint.ReconcileRestores | src/agent/trace.py:207-304 | reconciling and resuming after any crash makes the writer's count exact |
| TraceCheckpoint.ReportedNumberIsTrueIff | src/agent/trace.py:319-335 | a reported line number is the true one exactly when no append was orphaned |
| TraceCheckpoint.FailedSyncMisnumbers | src/agent/trace.py:319-335 | a run with a failed sync whose next successful append reports 2 for the third line |
| TraceCheckpoint.OrphanedFirstEventBlocks | src/agent/fs_memory.py:1800-1845 | a run through reconciliation, one append and a crash after which the resumed session stands at count 0 before one event and no append begins |
| TraceCheckpoint.SessionMayAppendIff | src/agent/fs_memory.py:1798-1825 | over all runs, a running session's append begins if and only if the event is small enough and the file is empty, or ends in a line feed and the count is not 0 |
| LineRanges.MergeLineRanges | src/agent/trace_cleanup.py:777-789 | merging keeps the covered lines and yields sorted ranges with uncovered lines between them |
| LineRanges.NormalFormIsUnique | src/agent/trace_cleanup.py:777-789 | a covered set has one such form, so equal protection is equal ranges |
| LineRanges.RangesForTraceLines | src/agent/trace_cleanup.py:792-823 | the loop over lines and offsets yields the maximal runs |
| LineRanges.RunsAreExactAndMaximal | src/agent/trace_cleanup.py:792-823 | the runs cover exactly the selected line numbers, ordered and maximal |
| LineRanges.RunsHoldTheBytes | src/agent/trace_cleanup.py:792-823 | the byte ranges hold exactly the selected lines' bytes |
| TraceRewrite.CopyBytes | src/agent/trace_cleanup.py:505-514 | chunked copying under short reads appends exactly the limited slice |
| TraceRewrite.RewriteTraceFile | src/agent/trace_cleanup.py:479-502 | seek and copy around the ranges yields everything outside them |
| TraceRewrite.RewriteIsLineFilter | src/agent/trace_cleanup.py:479-502 | scan, select, coalesce and rewrite is, byte for byte, filtering the lines |
| TraceRewrite.RewriteConserves | src/agent/trace_cleanup.py:283-305 | new size + bytes freed = old size, lines left + lines removed = all lines |
| CleanPlan.InspectSessionSpans | src/agent/trace.py:161-204 | one span for every session, from its first to its last event, with its count, in order of first occurrence |
| CleanPlan.SpansProtect | src/agent/trace_cleanup.py:670-687 | the protected ranges cover exactly the lines between two events of a protected session |
| CleanPlan.ProtectedLineRanges | src/agent/trace_cleanup.py:670-703 | protected spans and the current trial, merged to the normal form of exactly the protected lines |
| CleanPlan.ProtectionIsUnique | src/agent/trace_cleanup.py:398-427 | recomputing the protection from the same events gives the same ranges |
| CleanPlan.ComputeCleanPlan | src/agent/trace_cleanup.py:165-267 | a plan belongs to its readings; an error exactly for negative days or an unreadable or changed trace |
| CleanPlan.PlanIsUnique | src/agent/trace_cleanup.py:165-267 | the readings determine the plan |
| CleanPlan.ExecuteCleanPlan | src/agent/trace_cleanup.py:270-427 | the first failing check decides the error, and then trace and trash stay as they are; otherwise the trace is rewritten, the old one kept if asked for, and the counts reported |
| CleanPlan.ExecutesIffNoError | src/agent/trace_cleanup.py:315-427 | a plan executes exactly when permission, lock, trace, checkpoint and protection all still hold |
| CleanPermission.RemovableIff | src/agent/trace_cleanup.py:165-267 | an event may go exactly if it is old, counted by the checkpoint, and outside the sessions of the checkpoint and of a living lock holder and the current trial |
| CleanPermission.ExecutesIff | src/agent/trace_cleanup.py:112-427 | a plan executes if and only if its lock reading was free (or, forced, its own), every checkpoint was counted and not ahead, something was removable, and lock, size, checkpoint and protected lines are unchanged |
| CleanPermission.RefusalsIff | src/agent/trace_cleanup.py:206-238 | a plan carries each refusal exactly when its readings give the cause |
| CleanSafety.AllReadingsAreCurrent | src/agent/trace_cleanup.py:375-384 | if the trace only grew, equal size means the plan was read from the present bytes |
| CleanSafety.StablePlanIsExact | src/agent/trace_cleanup.py:165-267 | a plan over a stable trace removes exactly the lines that are old, before the boundary and unprotected |
| CleanSafety.CommittedCleanIsExact | src/agent/trace_cleanup.py:270-427 | a committed clean of a trace that only grew removes exactly what is removable under the present checkpoint |
| CleanSafety.CommittedCleanConserves | src/agent/trace_cleanup.py:270-305 | bytes and lines reported as removed add up with what is left |
| CleanSafety.SurvivorsAreExact | src/agent/trace_cleanup.py:270-427 | an event keeps its place among the survivors exactly when it is not removable under the present checkpoint |
| CleanSafety.SessionStaysIff | src/agent/trace_cleanup.py:270-427 | a committed clean of a trace that only grew keeps every event of a session if and only if none of them is removable; for a session the plan protects none is |
| CleanSafety.ProtectedEventsAreKept | src/agent/trace_cleanup.py:369-427 | the cleaned events are the old ones at increasing positions, among them every position of a protected session, the checkpoint's included |
| CleanSafety.ProtectionSurvives | src/agent/trace_cleanup.py:749-774 | a kept protected line is protected again after renumbering |
| CleanSafety.CleaningIsIdempotent | src/agent/trace_cleanup.py:749-774 | without a checkpoint a second plan with the same cutoff and sessions removes nothing |
| CleanSafety.CleaningCanOvertakeTheCheckpoint | src/agent/trace.py:135-158 | after a clean the checkpoint is ahead exactly when its count exceeds the lines left, and then planning and reconciling refuse |
| CleanSafety.CleanOvertakesTheCheckpoint | src/agent/trace_cleanup.py:270-305 | a plan without refusals over a fully counted trace that executes and leaves the checkpoint ahead |
| CleanSafety.InterveningCleanDefeatsRevalidation | src/agent/trace_cleanup.py:375-384 | a plan, another clean and an append of equal length: all checks pass and a new event is removed |
| CleanSafety.SwitchedSessionIsNotProtected | src/agent/trace_cleanup.py:355-366 | a forced clean under a re-taken lock removes events of the session that holds it |
| WorkspaceLock.WorkspaceLock.AwaitLock | src/agent/workspace_lock.py:229-241 | the retry loop ends at the first attempt that finds the lock free or the time up |
| WorkspaceLock.WorkspaceLock.Acquire | src/agent/workspace_lock.py:212-253 | held exactly on success, busy leaves the file alone and reports its holder, a failed write gives the lock up; a held lock names its holder exactly when the write got as far as the last field |
| WorkspaceLock.WorkspaceLock.Release | src/agent/workspace_lock.py:255-264 | releasing twice is releasing once, and the name stays in the file |
| WorkspaceLock.WorkspaceLock.Probe | src/agent/workspace_lock.py:310-350 | locked exactly if someone owns the lock and neither backend, open nor flock failed; an error exactly for a fault that was met; owner and file left as they were |
| WorkspaceLock.AcquiresIffFreeInTime | src/agent/workspace_lock.py:229-241 | the lock is obtained exactly when it is free at an attempt before the time is up |
| WorkspaceLock.LivenessIff | src/agent/trace_cleanup.py:618-632 | a pid is the holder's exactly if its process was created within half a second of the recorded time; then it is this process or another, else the holder is gone |
| WorkspaceLock.ReplacedIffGone | src/agent/workspace_lock.py:212-253 | a stale holder is recorded exactly when the file named one that is gone |
| WorkspaceLock.WritingForgets | src/agent/workspace_lock.py:365-377 | once truncated, the file never names the former holder again, and the new one only if the write got far enough |
| WorkspaceLock.StaleIffGone | src/agent/workspace_lock.py:379-387 | the lock's staleness test and the cleanup's liveness test agree on who is gone |
| CleanupProtocol.StepKeepsLock | src/agent/workspace_lock.py:212-264 | every step of every process, a short write of the name among them, keeps one owner and, once acquired, the text its write left |
| CleanupProtocol.EveryRunKeepsLock | src/agent/workspace_lock.py:212-350 | the same over all runs |
| CleanupProtocol.LockNamesItsHolder | src/agent/workspace_lock.py:212-350 | two processes never own the lock together; a held lock names its holder if and only if the name was written as far as its last field, and otherwise names nobody; apart from that another name is seen only while the owner probes or writes its own |
| CleanupProtocol.HeldWithoutName | src/agent/workspace_lock.py:365-377 | a run after which a held lock names nobody |
| CleanupProtocol.DisorderNeedsTheWindow | src/agent/trace_cleanup.py:331-366 | a busy lock under the caller's own name belongs to someone else only while that process probes or has not yet truncated the file |
| CleanupProtocol.StepsOutsideTheWindowAreOrderly | src/agent/trace_cleanup.py:331-366 | over all runs every step that has an effect is orderly unless the lock's owner is probing or has not truncated |
| CleanupProtocol.EveryOrderlyRunKeepsCleanup | src/agent/trace_cleanup.py:270-427 | over all runs outside that window: readings have only grown, a revalidated plan stays valid until it is committed, its process owns the lock |
| CleanupProtocol.CommittedCleansAreExact | src/agent/trace_cleanup.py:270-427 | in every such run a replacement is made by the lock's holder and, without another clean since planning, removes exactly what is removable then |
| CleanupProtocol.OvertakenCleanupLosesAnEvent | src/agent/trace_cleanup.py:331-366 | a run through the window in which a new event of the lock's holder disappears |
| TrialIndex.TrialStore.WriteRecord | src/agent/fs_memory.py:1353-1376 | a record is written once and an existing one refused |
| TrialIndex.TrialStore.InsertRows | src/agent/fs_memory.py:2321-2369 | insertion succeeds exactly for distinct trial ids and then holds the projection of the records |
| TrialIndex.TrialStore.Rebuild | src/agent/fs_memory.py:1649-1695 | a rebuild replaces the index by the projection with its count, start and latest source time, or keeps the old one on duplicate ids |
| TrialIndex.TrialStore.EnsureCurrent | src/agent/fs_memory.py:1764-1772 | rebuilds exactly when stale |
| TrialIndex.ProjectionIsUnique | src/agent/fs_memory.py:2372-2405 | the records determine the rows |
| TrialIndex.ProjectionSize | src/agent/fs_memory.py:1748-1761 | an index has as many rows as there are records |
| TrialIndex.FreshIndexIsExact | src/agent/fs_memory.py:1748-1761 | over all runs of writes, deletes, rebuilds and damage under a ticking clock, not stale means exactly the present records |
| TrialIndex.FreshIndexIsExactIff | src/agent/fs_memory.py:1748-1761 | under any clock, a fresh index is exact if and only if it has the records with its own modification time |
| TrialIndex.EnsureMakesExact | src/agent/fs_memory.py:1764-1772 | ensuring leaves a fresh exact index, except exactly for duplicate ids |
| TrialIndex.SameTickIsMissed | src/agent/fs_memory.py:1748-1761 | a run within one tick after which a fresh index names a deleted record |
| CandidateIdentity.CanonicalizeCandidate | src/agent/candidate_identity.py:70-135 | the loop over options fills flags and values to the canonical candidate, or to its first error |
| CandidateIdentity.ClassifyIff | src/agent/candidate_identity.py:98-128 | by the tables alone: accumulating options are refused, literals come before prefixes, a longer prefix before a shorter, flags last; a bare prefix lacks its value |
| CandidateIdentity.CustomisedIff | src/agent/candidate_identity.py:84-94 | a customised specification adds to the default tables and overrides them, and fails exactly for a flag without a normal form |
| CandidateIdentity.NormalizeJoinsWords | src/agent/candidate_identity.py:173-181 | the normal form is the option's words in order with one blank between them; without words it fails |
| CandidateIdentity.NormalizeAlikeIff | src/agent/candidate_identity.py:173-181 | two accepted options have one normal form exactly when they have the same words |
| CandidateIdentity.NormalizeFailsIff | src/agent/candidate_identity.py:173-181 | an option with words is refused exactly for a control character between its first and last visible ones, tabs included |
| CandidateIdentity.NormalIffFixed | src/agent/candidate_identity.py:173-181 | normalisation is idempotent: its results are exactly the texts it leaves alone |
| CandidateEquality.AcceptedIff | src/agent/candidate_identity.py:70-128 | a combination is accepted exactly when its set of normalised options is consistent and has no clash |
| CandidateEquality.AcceptanceForgetsOrder | src/agent/candidate_identity.py:70-128 | order and repetition do not matter for acceptance, for every taxonomy |
| CandidateEquality.SameFormsSameCandidate | src/agent/candidate_identity.py:70-135 | under an unambiguous taxonomy they do not matter for the candidate either |
| CandidateEquality.LaterSpellingWins | src/agent/candidate_identity.py:197-207 | two spellings of one value give different candidates in different orders |
| CandidateEquality.IdentityIsExactIff | src/agent/candidate_identity.py:70-135 | the candidate depends on the set of normalised options alone if and only if the taxonomy is unambiguous |
| CandidateEquality.PayloadIsInjective | src/agent/candidate_identity.py:138-147 | the NUL-joined payload determines its items |
| CandidateEquality.PayloadIsExact | src/agent/candidate_identity.py:138-147 | equal payloads exactly for equal sets of normalised options |
| CandidateEquality.PayloadIsExactIff | src/agent/candidate_identity.py:138-147 | that law holds for all accepted combinations if and only if the taxonomy is unambiguous |
| CandidateEquality.UnambiguousIff | src/agent/candidate_identity.py:12-41 | unambiguous means that literals and prefixes together spell each value at most once |
| CandidateEquality.ClearTablesSuffice | src/agent/candidate_identity.py:12-41 | distinct literal values, distinct prefix keys, and no key in both, are enough |
| CandidateEquality.CanonicalOfHashItems | src/agent/candidate_identity.py:54-57 | canonicalising the hash items gives the same candidate back |
| CandidateEquality.DefaultIsUnambiguous | src/agent/candidate_identity.py:12-41 | the default tables are unambiguous |
| CandidateEquality.DefaultIdentityIsExact | src/agent/candidate_identity.py:70-147 | both laws for the default specification |
| CandidateEquality.AliasIsAmbiguous | src/agent/candidate_identity.py:88-96 | a customised literal for which identity depends on the order |
| SearchCandidates.NeighboursAreOffered | spikes/05.5_integration_feasibility/full_agent.py:204-210 | every combination one option away from the best is in the stream |
| SearchCandidates.CenterIsBestIff | spikes/05.5_integration_feasibility/full_agent.py:218-226 | no successful trial outscores the one the search moves around, if and only if some score is positive, none is zero, or all are |
| SearchCandidates.CenterIsFirstBest | spikes/05.5_integration_feasibility/full_agent.py:218-226 | with nonzero scores every earlier success scored less |
| SearchCandidates.ZeroLosesToNegative | spikes/05.5_integration_feasibility/full_agent.py:218-226 | of scores 0.0 and -1.0 the search prefers the latter |
| SearchCandidates.HardReasonIff | spikes/05.5_integration_feasibility/full_agent.py:100-144 | a combination passes exactly if it is non-empty, untried, known, without two options of which one names the other as a conflict, and holds no combination that failed to compile; else the first of these is the reason |
| SearchStream.ScoreForIff | spikes/05.5_integration_feasibility/full_agent.py:83-87 | the score that counts for a combination is that of its latest success |
| SearchStream.SuspectsAreLeast | spikes/05.5_integration_feasibility/full_agent.py:55-81 | the suspects are the near misses that cost least, in order of cost, up to the limit |
| SearchStream.StreamIff | spikes/05.5_integration_feasibility/full_agent.py:188-216 | the stream holds the warm-ups, the proposal, the neighbours of the best, the best with two suspects and the random picks, and nothing else |
| SearchStream.StreamBegins | spikes/05.5_integration_feasibility/full_agent.py:188-210 | warm-ups first, then the proposal, then a neighbour for every option in the order of their text |
| SearchCandidates.NearMissesAreExact | spikes/05.5_integration_feasibility/full_agent.py:55-81 | suspects are exactly the single additions that cost within the given range |
| SearchCandidates.PairsAreExact | spikes/05.5_integration_feasibility/full_agent.py:192-202 | guided candidates are exactly the center with two suspects |
| SearchRun.ConstraintLayer.Validate | spikes/05.5_integration_feasibility/full_agent.py:100-144 | the first failing check decides; only soft-blocked candidates that pass the others are counted and, at the threshold, forced |
| SearchRun.SoftBlockYieldsIff | spikes/05.5_integration_feasibility/full_agent.py:119-126 | a soft-blocked candidate passes from the threshold-th time on and not before |
| SearchRun.FullAgentStrategy.Propose | spikes/05.5_integration_feasibility/full_agent.py:162-186 | the first acceptable candidate of the stream, every earlier one recorded with its reason, or exhaustion of all |
| SearchRun.RunStrategy | spikes/05.5_integration_feasibility/runner.py:57-90 | every trial passed the checks against its past and came from its round's stream; a shorter run means nothing was left |
| SearchRun.CheckedRunsNeverRepeat | spikes/05.5_integration_feasibility/full_agent.py:100-144 | trials are pairwise distinct, non-empty, known, free of conflicts and of earlier failed combinations |
| SearchRun.RunsAreBounded | spikes/05.5_integration_feasibility/runner.py:45-54 | duplicate rate 0 and at most 2^options - 1 trials |
| SearchRun.DuplicateRateMeans | spikes/05.5_integration_feasibility/runner.py:45-54 | the duplicate rate times the number of trials is the number of repeated combinations |
| SearchRun.DefaultRunsAreShort | spikes/05.5_integration_feasibility/runner.py:57-90 | at most 255 trials with the default catalog |
| SearchRun.ExhaustionIsLocal | spikes/05.5_integration_feasibility/full_agent.py:162-226 | an exhausted run has tried or been forbidden every neighbour of its best combination |
| SearchRun.DefaultRunsCompile | spikes/05.5_integration_feasibility/objective.py:40-60 | with the default catalog no trial of a run fails to compile |
| FailureClassifier.MergeCandidates | src/agent/skills/error_analyzer.py:426-455 | one candidate per category and route, in order of first occurrence, with everything of its group once |
| FailureClassifier.Classify | src/agent/skills/error_analyzer.py:320-382 | merging, selection and the write flag, from the matched candidates on |
| FailureClassifier.MergedConfidenceIff | src/agent/skills/error_analyzer.py:494-500 | a bucket is HIGH exactly with two different sources or a HIGH member, by its members alone |
| FailureClassifier.SelectedIsSurest | src/agent/skills/error_analyzer.py:458-485 | certain environment evidence if any, else the surest bucket, else the route that blames most |
| FailureClassifier.BlameIsConservative | src/agent/skills/error_analyzer.py:352-382 | the options are blamed with HIGH confidence if and only if there is a HIGH option bucket and no HIGH environment bucket, and failed combinations are written exactly when, besides, that is allowed and the selection names options |
| FailureClassifier.ReportedOrder | src/agent/skills/error_analyzer.py:458-485 | without a HIGH environment bucket the highest confidence is reported, and for it an option before the environment before an unknown route |
| FailureClassifier.BlameNeedsTwoSources | src/agent/skills/error_analyzer.py:352-382 | with MEDIUM matches only two different sources can write failed combinations |
| FailureClassifier.LogOrderIsIrrelevant | src/agent/skills/error_analyzer.py:426-485 | route and confidence do not depend on order or repetition of the matches |
| ClassifierReport.MergedIsUnion | src/agent/skills/error_analyzer.py:426-508 | a merged candidate is retryable if a member is, has each evidence, option and source of its members once, and a rule of one, a status rule only if all are |
| ClassifierReport.NoMatchIsUnknown | src/agent/skills/error_analyzer.py:320-382 | without any match the failure is unknown, not retried and not written down |
| ClassifierReport.ReportTellsMost | src/agent/skills/error_analyzer.py:320-508 | the report is a merged candidate, and among those as sure and of its route it is specific rather than generic, then has most evidence, then the last rule name |
| ClassifierOrder.AgreeingRulesForgetOrder | src/agent/skills/error_analyzer.py:426-508 | if the rules of a bucket agree and a rule has one bucket, order and repetition change nothing but the order of evidence and options: category, rule, retry and write flag included |
| ClassifierOrder.ClassificationForgetsLogOrder | src/agent/skills/error_analyzer.py:56-268 | so it is for matches by the rules of compilation or of benchmarking |
| ClassifierOrder.DisagreeingRulesDependOnOrder | src/agent/skills/error_analyzer.py:458-508 | three matches of disagreeing rules whose order decides the category and the write flag |

## Left out

- Floating-point rounding, non-finite numbers and the distribution of the random generator.
- The notes texts of results, and argument checks that no caller in the program can fail.
- JSON, YAML, pydantic and SQLite: files are bytes, decoded lines or values; an atomic replace is one step.
- Directory, symbolic-link and namespace checks, durability behind fsync, backups' file names, hostnames and commands in lock holders.
- Session-id and lease validation, process observation, process cleaning, configuration, registries, command line and reports.
- Regular expressions of the failure rules: the matched candidates are an arbitrary list.
- The mock language model: its proposal is a parameter of every round. The random fallback draws are parameters too.
- `validate_option_catalog` as an error path: the search takes a valid catalog.
- The other strategies of the feasibility spike, and specification and workspace snapshots.
- CleanupProtocol.CommittedCleansAreExact: says nothing of a commit whose plan was begun before another cleanup; the plan carries nothing that would tell, and CleanSafety.InterveningCleanDefeatsRevalidation shows the claim is false there.
- CleanupProtocol.EveryOrderlyRunKeepsCleanup: excludes runs through the window of CleanupProtocol.DisorderNeedsTheWindow, where CleanupProtocol.OvertakenCleanupLosesAnEvent shows it is false.
- TraceCheckpoint.CountsAreOrdered: cleaning is no step of that system; what a clean does to the counts is CleanSafety.CleaningCanOvertakeTheCheckpoint.
- CleanSafety.CleaningIsIdempotent: not stated with a checkpoint, under whose fixed line count the remaining lines move up.
