/**
 Matching baseline and candidate runs by pair key, and judging the quality of the matched pairs.
 */
module Pairing {
  import opened Wrappers
  import opened FiniteSets
  import opened StatsTypes
  import opened RecordOrder

  const GAP_DURATION_MULT := 5.0
  const GAP_FLOOR_SEC := 5.0
  const GAP_ABS_MAX_SEC := 300.0
  const GAP_CONFLICT_RATIO := 10.0
  const GAP_CONFLICT_ABS_SEC := 5.0

  datatype Pair = Pair(baseline: RunRecord, candidate: RunRecord)

  datatype PairedSamples = PairedSamples(pairs: seq<Pair>, partialPairing: bool)

  /** A valid run that carries a pair key: the only kind that can be matched. */
  predicate Keyed(r: RunRecord) {
    r.validForScoring && r.pairKey.Some?
  }

  predicate HasKey(records: seq<RunRecord>, key: Option<string>) {
    exists i :: 0 <= i < |records| && records[i].pairKey == key
  }

  /** `_record_by_pair_key`, in insertion order. */
  function RecordsByPairKey(records: seq<RunRecord>): Result<seq<RunRecord>, StatsError> {
    if records == [] then Ok([])
    else
      var front :- RecordsByPairKey(records[..|records| - 1]);
      var last := records[|records| - 1];
      if !Keyed(last) then Ok(front)
      else if last.score == None then Err(MissingScore)
      else if HasKey(front, last.pairKey) then Err(DuplicatePairKey)
      else Ok(front + [last])
  }

  ghost predicate DistinctKeys(s: seq<RunRecord>) {
    forall i, j :: 0 <= i < j < |s| ==> s[i].pairKey != s[j].pairKey
  }

  lemma {:induction false} KeyedRecordsAreExact(records: seq<RunRecord>)
    requires RecordsByPairKey(records).Ok?
    ensures var s := RecordsByPairKey(records).value;
      && DistinctKeys(s)
      && (forall i :: 0 <= i < |s| ==> s[i].score.Some?)
      && (forall r :: r in s <==> r in records && Keyed(r))
  {
    if records != [] {
      var front, last := records[..|records| - 1], records[|records| - 1];
      KeyedRecordsAreExact(front);
      assert forall r :: r in records <==> r in front || r == last;
      var before := RecordsByPairKey(front).value;
      if Keyed(last) {
        assert RecordsByPairKey(records).value == before + [last];
        assert forall i :: 0 <= i < |before| ==> before[i].pairKey != last.pairKey;
        assert forall r :: r in before + [last] <==> r in before || r == last;
      }
    }
  }

  /** The candidate run with the given key. */
  function WithKey(records: seq<RunRecord>, key: Option<string>): (r: Option<RunRecord>)
    ensures r.Some? ==> r.value in records && r.value.pairKey == key
    ensures r == None <==> !HasKey(records, key)
  {
    if records == [] then None
    else if records[|records| - 1].pairKey == key then Some(records[|records| - 1])
    else WithKey(records[..|records| - 1], key)
  }

  /** The matched pairs, in baseline order. */
  function MatchedPairs(baseline: seq<RunRecord>, candidate: seq<RunRecord>): seq<Pair> {
    if baseline == [] then []
    else
      var front, last := MatchedPairs(baseline[..|baseline| - 1], candidate), baseline[|baseline| - 1];
      match WithKey(candidate, last.pairKey)
      case None => front
      case Some(partner) => front + [Pair(last, partner)]
  }

  /** `_paired_score_samples`. */
  function PairedScoreSamples(baseline: seq<RunRecord>, candidate: seq<RunRecord>)
    : Result<Option<PairedSamples>, StatsError>
  {
    var b :- RecordsByPairKey(baseline);
    var c :- RecordsByPairKey(candidate);
    var pairs := MatchedPairs(b, c);
    if b == [] || c == [] || pairs == [] then Ok(None)
    else Ok(Some(PairedSamples(pairs, |pairs| < |b| || |pairs| < |c|)))
  }

  lemma {:induction false} PairsMatch(baseline: seq<RunRecord>, candidate: seq<RunRecord>)
    ensures var pairs := MatchedPairs(baseline, candidate);
      && |pairs| <= |baseline|
      && (forall p :: p in pairs ==>
           p.baseline in baseline && p.candidate in candidate && p.baseline.pairKey == p.candidate.pairKey)
      && (|pairs| == |baseline| ==> forall b :: b in baseline ==> HasKey(candidate, b.pairKey))
  {
    if baseline != [] {
      PairsMatch(baseline[..|baseline| - 1], candidate);
      assert baseline == baseline[..|baseline| - 1] + [baseline[|baseline| - 1]];
    }
  }

  ghost function KeysOf(s: seq<RunRecord>): set<Option<string>> {
    set i | 0 <= i < |s| :: s[i].pairKey
  }

  lemma {:induction false} DistinctKeysCount(s: seq<RunRecord>)
    requires DistinctKeys(s)
    ensures |KeysOf(s)| == |s|
  {
    if s != [] {
      var front := s[..|s| - 1];
      DistinctKeysCount(front);
      assert KeysOf(s) == KeysOf(front) + {s[|s| - 1].pairKey};
    }
  }

  lemma KeysSnoc(s: seq<RunRecord>)
    requires DistinctKeys(s) && s != []
    ensures KeysOf(s) == KeysOf(s[..|s| - 1]) + {s[|s| - 1].pairKey}
    ensures s[|s| - 1].pairKey !in KeysOf(s[..|s| - 1])
  {}

  ghost function MatchedKeys(pairs: seq<Pair>): set<Option<string>> {
    set i | 0 <= i < |pairs| :: pairs[i].baseline.pairKey
  }

  lemma MatchedKeysSnoc(pairs: seq<Pair>, p: Pair)
    ensures MatchedKeys(pairs + [p]) == MatchedKeys(pairs) + {p.baseline.pairKey}
  {
    var longer := pairs + [p];
    assert longer[|pairs|] == p;
    forall k | k in MatchedKeys(pairs) ensures k in MatchedKeys(longer) {
      var i :| 0 <= i < |pairs| && pairs[i].baseline.pairKey == k;
      assert longer[i] == pairs[i];
    }
  }

  lemma {:induction false} MatchedKeysAreCommon(b: seq<RunRecord>, c: seq<RunRecord>)
    requires DistinctKeys(b)
    ensures MatchedKeys(MatchedPairs(b, c)) == KeysOf(b) * KeysOf(c)
    ensures |MatchedPairs(b, c)| == |KeysOf(b) * KeysOf(c)|
  {
    if b != [] {
      var front, last := b[..|b| - 1], b[|b| - 1];
      MatchedKeysAreCommon(front, c);
      KeysSnoc(b);
      hide MatchedKeys, DistinctKeys;
      var before := MatchedPairs(front, c);
      if HasKey(c, last.pairKey) {
        assert last.pairKey in KeysOf(c);
        hide KeysOf;
        MatchedKeysSnoc(before, Pair(last, WithKey(c, last.pairKey).value));
        assert KeysOf(b) * KeysOf(c) == KeysOf(front) * KeysOf(c) + {last.pairKey};
      } else {
        assert KeysOf(b) * KeysOf(c) == KeysOf(front) * KeysOf(c);
      }
    }
  }

  /** Not partial means that both arms carry exactly the same pair keys, and each is matched. */
  lemma FullPairingMatchesEveryKey(baseline: seq<RunRecord>, candidate: seq<RunRecord>)
    requires PairedScoreSamples(baseline, candidate).Ok?
    requires PairedScoreSamples(baseline, candidate).value.Some?
    ensures
      var b, c := RecordsByPairKey(baseline).value, RecordsByPairKey(candidate).value;
      !PairedScoreSamples(baseline, candidate).value.value.partialPairing <==> KeysOf(b) == KeysOf(c)
  {
    var b, c := RecordsByPairKey(baseline).value, RecordsByPairKey(candidate).value;
    KeyedRecordsAreExact(baseline);
    KeyedRecordsAreExact(candidate);
    CommonKeys(b, c);
  }

  lemma CommonKeys(b: seq<RunRecord>, c: seq<RunRecord>)
    requires DistinctKeys(b) && DistinctKeys(c)
    ensures |MatchedPairs(b, c)| >= |b| && |MatchedPairs(b, c)| >= |c| <==> KeysOf(b) == KeysOf(c)
  {
    MatchedKeysAreCommon(b, c);
    DistinctKeysCount(b);
    DistinctKeysCount(c);
    var common := KeysOf(b) * KeysOf(c);
    if |common| >= |b| && |common| >= |c| {
      SubsetOfSameSize(common, KeysOf(b));
      SubsetOfSameSize(common, KeysOf(c));
    }
    if KeysOf(b) == KeysOf(c) {
      assert common == KeysOf(b);
    }
  }

  function KeyedOnly(records: seq<RunRecord>): seq<RunRecord> {
    if records == [] then []
    else
      var last := records[|records| - 1];
      KeyedOnly(records[..|records| - 1]) + if Keyed(last) then [last] else []
  }

  lemma {:induction false} PairKeysOfKeyed(records: seq<RunRecord>)
    ensures RecordsByPairKey(KeyedOnly(records)) == RecordsByPairKey(records)
  {
    if records != [] {
      var front, last := records[..|records| - 1], records[|records| - 1];
      PairKeysOfKeyed(front);
      assert records == front + [last];
      PairKeysSnoc(front, last);
      PairKeysSnoc(KeyedOnly(front), last);
      hide RecordsByPairKey, HasKey, Keyed;
      assert KeyedOnly(front) + [] == KeyedOnly(front);
    }
  }

  /** What one more record does to the dictionary. */
  lemma PairKeysSnoc(records: seq<RunRecord>, last: RunRecord)
    ensures RecordsByPairKey(records + [last]) ==
      var front := RecordsByPairKey(records);
      if front.Err? || !Keyed(last) then front
      else if last.score == None then Err(MissingScore)
      else if HasKey(front.value, last.pairKey) then Err(DuplicatePairKey)
      else Ok(front.value + [last])
  {
    assert (records + [last])[..|records|] == records;
  }

  /** Runs without a pair key are invisible to the pairing, partial or not, wherever they stand in either arm. */
  lemma UnkeyedRunsAreInvisible(b: seq<RunRecord>, b': seq<RunRecord>, c: seq<RunRecord>, c': seq<RunRecord>)
    requires KeyedOnly(b) == KeyedOnly(b') && KeyedOnly(c) == KeyedOnly(c')
    ensures PairedScoreSamples(b, c) == PairedScoreSamples(b', c')
  {
    PairKeysOfKeyed(b);
    PairKeysOfKeyed(b');
    PairKeysOfKeyed(c);
    PairKeysOfKeyed(c');
  }

  function Seconds(micros: int): real {
    micros as real / 1000000.0
  }

  function AtMost(a: real, b: real): real {
    if b < a then b else a
  }

  function AtLeast(a: real, b: real): real {
    if a < b then b else a
  }

  /** `_effective_record_duration_sec`; `None` stands for not-a-number. */
  function EffectiveDuration(r: RunRecord): Result<Option<real>, StatsError> {
    if r.startedAt.Some? && r.endedAt.Some? then
      var derived := r.endedAt.value - r.startedAt.value;
      if derived < 0 then Err(EndsBeforeStart)
      else if r.durationSec == None then Ok(Some(Seconds(derived)))
      else Ok(Some(AtMost(r.durationSec.value, Seconds(derived))))
    else Ok(r.durationSec)
  }

  /** `_pair_effective_duration_sec`. */
  function PairDuration(p: Pair): Result<Option<real>, StatsError> {
    var b :- EffectiveDuration(p.baseline);
    var c :- EffectiveDuration(p.candidate);
    match (b, c)
    case (Some(x), Some(y)) => Ok(Some(AtMost(x, y)))
    case (Some(x), None) => Ok(Some(x))
    case (None, y) => Ok(y)
  }

  /** The gap the runs themselves report. */
  function ReportedGap(p: Pair): Option<real> {
    match (p.baseline.pairTimeGapSec, p.candidate.pairTimeGapSec)
    case (Some(x), Some(y)) => Some(AtLeast(x, y))
    case (Some(x), None) => Some(x)
    case (None, y) => y
  }

  /** The gap between the start times. */
  function DerivedGap(p: Pair): Option<real> {
    if p.baseline.startedAt == None || p.candidate.startedAt == None then None
    else
      var d := p.candidate.startedAt.value - p.baseline.startedAt.value;
      Some(Seconds(if d < 0 then -d else d))
  }

  /** `_pair_time_gap_source_conflict`. */
  predicate GapSourcesConflict(field: real, derived: real) {
    && derived > field
    && (derived > AtLeast(field * GAP_CONFLICT_RATIO, GAP_FLOOR_SEC) || derived - field > GAP_CONFLICT_ABS_SEC)
  }

  datatype TimeGap = TimeGap(effective: Option<real>, sourceConflict: bool)

  /** `_pair_time_gap`: the larger of the two sources. */
  function PairTimeGap(p: Pair): TimeGap {
    match (ReportedGap(p), DerivedGap(p))
    case (None, d) => TimeGap(d, false)
    case (Some(f), None) => TimeGap(Some(f), false)
    case (Some(f), Some(d)) => TimeGap(Some(AtLeast(f, d)), GapSourcesConflict(f, d))
  }

  datatype PairCheck = SuspectPair(timeGapConflict: bool) | UnknownGap | GoodPair

  /** One round of the loop in `_pair_quality`. */
  function CheckPair(p: Pair): Result<PairCheck, StatsError> {
    if p.baseline.pairOrder == None || p.candidate.pairOrder == None
      || p.baseline.pairOrder != p.candidate.pairOrder then Ok(SuspectPair(false))
    else
      var gap := PairTimeGap(p);
      if gap.sourceConflict then Ok(SuspectPair(true))
      else if gap.effective == None then Ok(UnknownGap)
      else if gap.effective.value > GAP_ABS_MAX_SEC then Ok(SuspectPair(false))
      else
        var duration :- PairDuration(p);
        var threshold := if duration.Some? then GAP_DURATION_MULT * duration.value else 0.0;
        if gap.effective.value > AtLeast(threshold, GAP_FLOOR_SEC) then Ok(SuspectPair(false))
        else Ok(GoodPair)
  }

  datatype PairDiagnostics = PairDiagnostics(quality: PairQuality, timeGapConflict: bool, runOverlap: bool)

  /** The outcome of the loop over the pairs, which stops at the first suspect or failing one. */
  function CheckPairs(pairs: seq<Pair>): Result<PairDiagnostics, StatsError> {
    if pairs == [] then Ok(PairDiagnostics(Good, false, false))
    else
      var front :- CheckPairs(pairs[..|pairs| - 1]);
      if front.quality == Suspect then Ok(front)
      else
        var check :- CheckPair(pairs[|pairs| - 1]);
        match check
        case SuspectPair(conflict) => Ok(PairDiagnostics(Suspect, conflict, false))
        case UnknownGap => Ok(PairDiagnostics(Unknown, false, false))
        case GoodPair => Ok(front)
  }

  function PairRecords(pairs: seq<Pair>): seq<RunRecord> {
    seq(|pairs|, i requires 0 <= i < |pairs| => pairs[i].baseline)
    + seq(|pairs|, i requires 0 <= i < |pairs| => pairs[i].candidate)
  }

  /** `_pair_quality` as a formula. */
  function PairQualityOf(pairs: seq<Pair>): Result<PairDiagnostics, StatsError> {
    if HaveTimeOverlap(PairRecords(pairs)) then Ok(PairDiagnostics(Suspect, false, true))
    else CheckPairs(pairs)
  }

  /** `_pair_quality`. */
  method JudgePairs(pairs: seq<Pair>) returns (r: Result<PairDiagnostics, StatsError>)
    ensures r == PairQualityOf(pairs)
  {
    hide HaveTimeOverlap, CheckPair, PairRecords;
    if HaveTimeOverlap(PairRecords(pairs)) {
      return Ok(PairDiagnostics(Suspect, false, true));
    }
    var sawUnknown := false;
    for k := 0 to |pairs|
      invariant CheckPairs(pairs[..k]) == Ok(PairDiagnostics(if sawUnknown then Unknown else Good, false, false))
    {
      assert pairs[..k + 1][..k] == pairs[..k];
      var check := CheckPair(pairs[k]);
      if check.Err? {
        StoppedEarly(pairs, k + 1);
        return Err(check.error);
      }
      if check.value.SuspectPair? {
        StoppedEarly(pairs, k + 1);
        return Ok(PairDiagnostics(Suspect, check.value.timeGapConflict, false));
      }
      if check.value.UnknownGap? {
        sawUnknown := true;
      }
    }
    assert pairs[..|pairs|] == pairs;
    return Ok(PairDiagnostics(if sawUnknown then Unknown else Good, false, false));
  }

  lemma {:induction false} StoppedEarly(pairs: seq<Pair>, k: nat)
    requires k <= |pairs|
    requires CheckPairs(pairs[..k]).Ok? ==> CheckPairs(pairs[..k]).value.quality == Suspect
    ensures CheckPairs(pairs) == CheckPairs(pairs[..k])
    decreases |pairs|
  {
    if k == |pairs| {
      assert pairs[..k] == pairs;
    } else {
      var front := pairs[..|pairs| - 1];
      assert front[..k] == pairs[..k];
      StoppedEarly(front, k);
    }
  }

  /** Both runs of a good pair were taken in the same order and close together. */
  ghost predicate CloselyPaired(p: Pair) {
    && p.baseline.pairOrder.Some? && p.baseline.pairOrder == p.candidate.pairOrder
    && var gap := PairTimeGap(p).effective;
      && gap.Some? && gap.value <= GAP_ABS_MAX_SEC
      && (DerivedGap(p).Some? ==> DerivedGap(p).value <= gap.value)
      && (ReportedGap(p).Some? ==> ReportedGap(p).value <= gap.value)
      && (gap.value <= GAP_FLOOR_SEC
          || exists d :: PairDuration(p) == Ok(Some(d)) && gap.value <= GAP_DURATION_MULT * d)
  }

  lemma GoodPairIsClose(p: Pair)
    requires CheckPair(p) == Ok(GoodPair)
    ensures CloselyPaired(p)
  {}

  /** Good quality: no overlap was found and every single pair is good. */
  lemma {:induction false} GoodQualityMeansEveryPair(pairs: seq<Pair>)
    ensures CheckPairs(pairs).Ok? && CheckPairs(pairs).value.quality == Good <==>
      forall i :: 0 <= i < |pairs| ==> CheckPair(pairs[i]) == Ok(GoodPair)
  {
    if pairs != [] {
      GoodQualityMeansEveryPair(pairs[..|pairs| - 1]);
    }
  }
}
