/** Which comparisons are refused, and with which error, in terms of the runs handed in. */
module ComparisonErrors {
  import opened Wrappers
  import opened StatsTypes
  import opened RecordOrder
  import opened Pairing
  import opened Comparison

  /** A measured valid run without a score. */
  ghost predicate LacksScore(records: seq<RunRecord>) {
    exists r :: r in records && r.measured && r.validForScoring && r.score == None
  }

  ghost predicate NothingValid(records: seq<RunRecord>) {
    forall r :: r in records && r.measured ==> !r.validForScoring
  }

  ghost predicate Disagree(b: seq<RunRecord>, c: seq<RunRecord>) {
    exists r, s :: (r in b || r in c) && (s in b || s in c) && r.measured && s.measured && r.direction != s.direction
  }

  /** Two valid runs of one arm under one key. */
  ghost predicate RepeatsKey(s: seq<RunRecord>) {
    exists i, j :: 0 <= i < j < |s| && Keyed(s[i]) && Keyed(s[j]) && s[i].pairKey == s[j].pairKey
  }

  /** Confidence strictly between 0 and 1, something to sample, and no negative tolerance. */
  ghost predicate Sensible(s: Settings) {
    0.0 < s.confidence < 1.0 && s.samples > 0 && s.baseZeroTolerance >= 0.0 && s.highCvThreshold >= 0.0
  }

  lemma {:induction false} ScoresFailIff(s: seq<RunRecord>)
    ensures ScoresOf(s).Err? <==> exists r :: r in s && r.validForScoring && r.score == None
    ensures ScoresOf(s).Err? ==> ScoresOf(s).error == MissingScore
    ensures ScoresOf(s) == Ok([]) <==> forall r :: r in s ==> !r.validForScoring
  {
    if s != [] {
      var front, last := s[..|s| - 1], s[|s| - 1];
      ScoresFailIff(front);
      assert s == front + [last];
    }
  }

  lemma ArmScores(records: seq<RunRecord>)
    ensures
      var scores := MeasuredValidScores(OrderedMeasured(records));
      && (scores == Err(MissingScore) <==> LacksScore(records)) && (scores.Err? ==> scores == Err(MissingScore))
      && (scores == Ok([]) <==> NothingValid(records))
  {
    OrderingIsIdempotent(records);
    MeasuredMembers(records);
    hide OrderedMeasured;
    ScoresFailIff(OrderedMeasured(records));
  }

  lemma DirectionFailsIff(b: seq<RunRecord>, c: seq<RunRecord>)
    requires OrderedMeasured(b) != []
    ensures ObjectiveDirection(OrderedMeasured(b) + OrderedMeasured(c)).Err? <==> Disagree(b, c)
  {
    MeasuredMembers(b);
    MeasuredMembers(c);
    hide OrderedMeasured;
    var all := OrderedMeasured(b) + OrderedMeasured(c);
    assert forall r :: r in all <==> (r in b || r in c) && r.measured;
    if ObjectiveDirection(all).Ok? {
      forall r, s | r in all && s in all ensures r.direction == s.direction {
        var i :| 0 <= i < |all| && all[i] == r;
        var j :| 0 <= j < |all| && all[j] == s;
      }
    } else {
      var i :| 0 <= i < |all| && all[i].direction != all[0].direction;
      assert all[i] in all && all[0] in all;
    }
  }

  lemma {:induction false} KeysFailIff(s: seq<RunRecord>)
    requires ScoresOf(s).Ok?
    ensures RecordsByPairKey(s).Err? <==> RepeatsKey(s)
    ensures RecordsByPairKey(s).Err? ==> RecordsByPairKey(s).error == DuplicatePairKey
  {
    if s != [] {
      var front, last := s[..|s| - 1], s[|s| - 1];
      KeysFailIff(front);
      assert s == front + [last];
      PairKeysSnoc(front, last);
      hide RecordsByPairKey;
      if RepeatsKey(front) {
        var i, j :| 0 <= i < j < |front| && Keyed(front[i]) && Keyed(front[j]) && front[i].pairKey == front[j].pairKey;
        assert s[i] == front[i] && s[j] == front[j];
      } else if Keyed(last) {
        LastKeyRepeats(front, last);
      }
    }
  }

  lemma LastKeyRepeats(front: seq<RunRecord>, last: RunRecord)
    requires Keyed(last) && RecordsByPairKey(front).Ok? && !RepeatsKey(front)
    ensures HasKey(RecordsByPairKey(front).value, last.pairKey) <==> RepeatsKey(front + [last])
  {
    KeyedRecordsAreExact(front);
    var d, s := RecordsByPairKey(front).value, front + [last];
    hide RecordsByPairKey;
    if k :| 0 <= k < |d| && d[k].pairKey == last.pairKey {
      assert d[k] in d;
      var i :| 0 <= i < |front| && front[i] == d[k];
      assert s[i] == front[i] && s[|front|] == last;
    }
    if i, j :| 0 <= i < j < |s| && Keyed(s[i]) && Keyed(s[j]) && s[i].pairKey == s[j].pairKey {
      assert j == |front| by {
        assert s[..|front|] == front;
      }
      assert front[i] in front && front[i] in d;
      var k :| 0 <= k < |d| && d[k] == front[i];
    }
  }

  /** The first check that fails, in the order of the code, up to the judgement of the pairs. */
  ghost function InputError(b: seq<RunRecord>, c: seq<RunRecord>, settings: Settings): Option<StatsError> {
    if LacksScore(b) || LacksScore(c) then Some(MissingScore)
    else if NothingValid(b) || NothingValid(c) then Some(EmptyScores)
    else if !Sensible(settings) then InvalidSettings(settings)
    else if Disagree(b, c) then Some(MixedObjectiveDirections)
    else if RepeatsKey(OrderedMeasured(b)) || RepeatsKey(OrderedMeasured(c)) then Some(DuplicatePairKey)
    else None
  }

  lemma SettingsFailIff(s: Settings)
    ensures InvalidSettings(s) == None <==> Sensible(s)
    ensures InvalidSettings(s) == Some(BadConfidenceLevel) <==> !(0.0 < s.confidence < 1.0)
    ensures InvalidSettings(s) == Some(BadBootstrapSamples) <==> 0.0 < s.confidence < 1.0 && s.samples <= 0
  {}

  lemma PairFails(p: Pair)
    ensures CheckPair(p).Err? ==> CheckPair(p).error == EndsBeforeStart
  {}

  /** Pairs fail only for a run that ends before it starts. */
  lemma {:induction false} PairsFailIff(pairs: seq<Pair>)
    ensures CheckPairs(pairs).Err? <==>
      exists k :: 0 <= k < |pairs| && CheckPair(pairs[k]).Err?
        && forall j :: 0 <= j < k ==> CheckPair(pairs[j]).Ok? && !CheckPair(pairs[j]).value.SuspectPair?
    ensures CheckPairs(pairs).Err? ==> CheckPairs(pairs).error == EndsBeforeStart
    ensures CheckPairs(pairs).Ok? && CheckPairs(pairs).value.quality != Suspect <==>
      forall j :: 0 <= j < |pairs| ==> CheckPair(pairs[j]).Ok? && !CheckPair(pairs[j]).value.SuspectPair?
  {
    if pairs != [] {
      var n := |pairs| - 1;
      PairsFailIff(pairs[..n]);
      PairFails(pairs[n]);
      hide CheckPair;
      assert forall j :: 0 <= j < n ==> pairs[..n][j] == pairs[j];
    }
  }

  /** The inputs are refused exactly for these errors, or for a pair with a run that ends before it starts. */
  lemma RefusedIff(b: seq<RunRecord>, c: seq<RunRecord>, settings: Settings)
    ensures InputError(b, c, settings).Some? ==> Prepare(b, c, settings) == Err(InputError(b, c, settings).value)
    ensures InputError(b, c, settings) == None ==>
      var samples := PairedScoreSamples(OrderedMeasured(b), OrderedMeasured(c));
      && samples.Ok?
      && (Prepare(b, c, settings).Err? <==> samples.value.Some? && PairQualityOf(samples.value.value.pairs).Err?)
      && (Prepare(b, c, settings).Err? ==> Prepare(b, c, settings).error == EndsBeforeStart)
  {
    ArmScores(b);
    ArmScores(c);
    SettingsFailIff(settings);
    hide LacksScore, NothingValid, Disagree, RepeatsKey, Sensible, InvalidSettings, CheckPairs;
    if !LacksScore(b) && !LacksScore(c) && !NothingValid(b) && !NothingValid(c) {
      SomethingMeasured(b);
      DirectionFailsIff(b, c);
      ScoredArm(b);
      ScoredArm(c);
      KeysFailIff(OrderedMeasured(b));
      KeysFailIff(OrderedMeasured(c));
    }
    hide OrderedMeasured, MeasuredValidScores, ObjectiveDirection, RecordsByPairKey;
    forall pairs ensures CheckPairs(pairs).Err? ==> CheckPairs(pairs).error == EndsBeforeStart {
      PairsFailIff(pairs);
    }
  }

  lemma SomethingMeasured(records: seq<RunRecord>)
    requires !NothingValid(records)
    ensures OrderedMeasured(records) != []
  {
    MeasuredMembers(records);
    var r :| r in records && r.measured && r.validForScoring;
    assert r in OrderedMeasured(records);
  }

  lemma ScoredArm(records: seq<RunRecord>)
    requires !LacksScore(records)
    ensures ScoresOf(OrderedMeasured(records)).Ok?
  {
    ArmScores(records);
    OrderingIsIdempotent(records);
  }
}
