/**
 Classifying a failure from matched evidence: matches are merged by category and route, two different
 sources make a merged match certain, and environment evidence wins over blaming an option.
 */
module FailureClassifier {
  import opened Wrappers
  import opened Sorting
  import CandidateIdentity

  datatype Route = OptionRelated | EnvironmentRelated | UnknownRoute

  datatype Confidence = Low | Medium | High

  datatype Evidence = Evidence(logRef: string, text: string, patternId: string)

  datatype Candidate = Candidate(
    category: string, route: Route, retryable: bool, evidence: seq<Evidence>, affected: seq<string>,
    ruleId: string, confidence: Confidence, sources: seq<string>)

  type BucketKey = (string, Route)

  function KeyOf(c: Candidate): BucketKey {
    (c.category, c.route)
  }

  function Rank(c: Confidence): int {
    match c case Low => 1 case Medium => 2 case High => 3
  }

  function RouteRank(r: Route): int {
    match r case UnknownRoute => 1 case EnvironmentRelated => 2 case OptionRelated => 3
  }

  /** First occurrences, in order. */
  function Distinct<T(==)>(s: seq<T>): seq<T> {
    if s == [] then []
    else
      var front, last := Distinct(s[..|s| - 1]), s[|s| - 1];
      if last in front then front else front + [last]
  }

  lemma {:induction false} DistinctMembers<T>(s: seq<T>)
    ensures forall x :: x in Distinct(s) <==> x in s
    ensures forall i, j :: 0 <= i < j < |Distinct(s)| ==> Distinct(s)[i] != Distinct(s)[j]
  {
    if s != [] {
      DistinctMembers(s[..|s| - 1]);
      assert s == s[..|s| - 1] + [s[|s| - 1]];
    }
  }

  /** `_dedupe_strings` and `_dedupe_evidence` */
  method Dedupe<T(==)>(values: seq<T>) returns (result: seq<T>)
    ensures result == Distinct(values)
  {
    var seen: set<T> := {};
    result := [];
    for i := 0 to |values|
      invariant result == Distinct(values[..i]) && seen == set x | x in result
    {
      assert values[..i + 1][..i] == values[..i];
      if values[i] !in seen {
        seen := seen + {values[i]};
        result := result + [values[i]];
      }
    }
    assert values[..|values|] == values;
  }

  /** The candidates of one bucket. */
  function GroupOf(candidates: seq<Candidate>, key: BucketKey): seq<Candidate> {
    if candidates == [] then []
    else
      var last := candidates[|candidates| - 1];
      GroupOf(candidates[..|candidates| - 1], key) + if KeyOf(last) == key then [last] else []
  }

  function KeysOf(candidates: seq<Candidate>): seq<BucketKey> {
    Distinct(seq(|candidates|, i requires 0 <= i < |candidates| => KeyOf(candidates[i])))
  }

  function AllSources(group: seq<Candidate>): seq<string> {
    if group == [] then [] else AllSources(group[..|group| - 1]) + group[|group| - 1].sources
  }

  function AllOptions(group: seq<Candidate>): seq<string> {
    if group == [] then [] else AllOptions(group[..|group| - 1]) + group[|group| - 1].affected
  }

  function AllEvidence(group: seq<Candidate>): seq<Evidence> {
    if group == [] then [] else AllEvidence(group[..|group| - 1]) + group[|group| - 1].evidence
  }

  function Highest(group: seq<Candidate>): Confidence {
    if group == [] then Low
    else
      var rest, last := Highest(group[..|group| - 1]), group[|group| - 1].confidence;
      if Rank(last) > Rank(rest) then last else rest
  }

  /** `_merged_confidence` */
  function MergedConfidence(group: seq<Candidate>): Confidence {
    if |Distinct(AllSources(group))| >= 2 then High else Highest(group)
  }

  const STATUS_PREFIX := "status_"

  /** `_preferred_rule_id`: the first rule that is not the status itself. */
  function PreferredRule(group: seq<Candidate>): string
    requires group != []
  {
    if exists i :: 0 <= i < |group| && !(STATUS_PREFIX <= group[i].ruleId) then FirstRule(group) else group[0].ruleId
  }

  function FirstRule(group: seq<Candidate>): string
    requires exists i :: 0 <= i < |group| && !(STATUS_PREFIX <= group[i].ruleId)
  {
    if !(STATUS_PREFIX <= group[0].ruleId) then group[0].ruleId
    else
      assert exists i :: 0 <= i < |group[1..]| && !(STATUS_PREFIX <= group[1..][i].ruleId) by {
        var i :| 0 <= i < |group| && !(STATUS_PREFIX <= group[i].ruleId);
        assert group[1..][i - 1] == group[i];
      }
      FirstRule(group[1..])
  }

  function MergedGroup(key: BucketKey, group: seq<Candidate>): Candidate
    requires group != []
  {
    Candidate(
      key.0, key.1, exists i :: 0 <= i < |group| && group[i].retryable,
      Distinct(AllEvidence(group)), Distinct(AllOptions(group)),
      PreferredRule(group), MergedConfidence(group), Distinct(AllSources(group)))
  }

  lemma {:induction false} GroupMembers(candidates: seq<Candidate>, key: BucketKey)
    ensures forall c :: c in GroupOf(candidates, key) <==> c in candidates && KeyOf(c) == key
  {
    if candidates != [] {
      GroupMembers(candidates[..|candidates| - 1], key);
      assert candidates == candidates[..|candidates| - 1] + [candidates[|candidates| - 1]];
    }
  }

  lemma KeysAreExact(candidates: seq<Candidate>)
    ensures forall key :: key in KeysOf(candidates) <==> GroupOf(candidates, key) != []
  {
    var all := seq(|candidates|, i requires 0 <= i < |candidates| => KeyOf(candidates[i]));
    DistinctMembers(all);
    forall key ensures key in KeysOf(candidates) <==> GroupOf(candidates, key) != [] {
      GroupMembers(candidates, key);
      if key in all {
        var i :| 0 <= i < |all| && all[i] == key;
        assert candidates[i] in GroupOf(candidates, key);
      }
      if GroupOf(candidates, key) != [] {
        var c := GroupOf(candidates, key)[0];
        assert c in candidates;
        var i :| 0 <= i < |candidates| && candidates[i] == c;
        assert all[i] == key;
      }
    }
  }

  /** `_merge_candidates`: one candidate per bucket, in order of first occurrence. */
  function Merged(candidates: seq<Candidate>): seq<Candidate> {
    var keys := KeysOf(candidates);
    KeysAreExact(candidates);
    seq(|keys|, i requires 0 <= i < |keys| => MergedGroup(keys[i], GroupOf(candidates, keys[i])))
  }

  /** Tuples compare by their parts, and the text comes last. */
  function SelectionKey(c: Candidate): seq<int> {
    var specificity := if c.category in {"infra_failure", "unknown_failure"} then 0 else 1;
    [Rank(c.confidence), RouteRank(c.route), specificity, |c.evidence|]
    + CandidateIdentity.Codes(c.ruleId)
  }

  /** The first of the greatest, as sorting in reverse puts it in front. */
  function FirstGreatest(candidates: seq<Candidate>): (k: nat)
    requires candidates != []
    ensures k < |candidates|
  {
    if |candidates| == 1 then 0
    else
      var n := |candidates| - 1;
      var k := FirstGreatest(candidates[..n]);
      if LexLeq(SelectionKey(candidates[n]), SelectionKey(candidates[k])) then k else n
  }

  predicate IsHighEnvironment(c: Candidate) {
    c.route == EnvironmentRelated && c.confidence == High
  }

  function HighEnvironment(candidates: seq<Candidate>): seq<Candidate> {
    if candidates == [] then []
    else
      var last := candidates[|candidates| - 1];
      HighEnvironment(candidates[..|candidates| - 1]) + if IsHighEnvironment(last) then [last] else []
  }

  /** `_select_candidate`; the route is the same throughout the first list, and so drops out of its key. */
  function Select(merged: seq<Candidate>): Candidate
    requires merged != []
  {
    var high := HighEnvironment(merged);
    if high != [] then high[FirstGreatest(high)] else merged[FirstGreatest(merged)]
  }

  datatype Classification = Classification(
    category: string, route: Route, confidence: Confidence, evidence: seq<Evidence>, affected: seq<string>,
    retryable: bool, writeFailedCombos: bool, ruleId: Option<string>)

  lemma SomethingMerged(candidates: seq<Candidate>)
    requires candidates != []
    ensures Merged(candidates) != []
  {
    var all := seq(|candidates|, i requires 0 <= i < |candidates| => KeyOf(candidates[i]));
    DistinctMembers(all);
    assert all[0] in KeysOf(candidates);
  }

  /** `_classify` from the matched candidates on. */
  function ClassificationOf(candidates: seq<Candidate>, allowWrite: bool): Classification {
    if candidates == [] then Classification("unknown_failure", UnknownRoute, Low, [], [], false, false, None)
    else
      SomethingMerged(candidates);
      var c := Select(Merged(candidates));
      Classification(
        c.category, c.route, c.confidence, c.evidence, c.affected, c.retryable,
        allowWrite && c.route == OptionRelated && c.confidence == High && c.affected != [], Some(c.ruleId))
  }

  datatype Bucket = Bucket(key: BucketKey, group: seq<Candidate>)

  function IndexOfBucket(buckets: seq<Bucket>, key: BucketKey): (i: nat)
    ensures i <= |buckets| && (i < |buckets| ==> buckets[i].key == key)
    ensures forall j :: 0 <= j < i ==> buckets[j].key != key
  {
    if buckets == [] || buckets[0].key == key then 0 else 1 + IndexOfBucket(buckets[1..], key)
  }

  function BucketsOf(candidates: seq<Candidate>): seq<Bucket> {
    var keys := KeysOf(candidates);
    seq(|keys|, i requires 0 <= i < |keys| => Bucket(keys[i], GroupOf(candidates, keys[i])))
  }

  lemma KeysSnoc(candidates: seq<Candidate>, c: Candidate)
    ensures KeysOf(candidates + [c]) ==
      if KeyOf(c) in KeysOf(candidates) then KeysOf(candidates) else KeysOf(candidates) + [KeyOf(c)]
  {
    var more := candidates + [c];
    var all := seq(|candidates|, i requires 0 <= i < |candidates| => KeyOf(candidates[i]));
    var allMore := seq(|more|, i requires 0 <= i < |more| => KeyOf(more[i]));
    assert allMore[..|all|] == all;
  }

  lemma GroupSnoc(candidates: seq<Candidate>, c: Candidate, key: BucketKey)
    ensures GroupOf(candidates + [c], key) == GroupOf(candidates, key) + if KeyOf(c) == key then [c] else []
  {
    assert (candidates + [c])[..|candidates|] == candidates;
  }

  lemma KeysAreDistinct(candidates: seq<Candidate>)
    ensures forall i, j :: 0 <= i < j < |KeysOf(candidates)| ==> KeysOf(candidates)[i] != KeysOf(candidates)[j]
  {
    DistinctMembers(seq(|candidates|, i requires 0 <= i < |candidates| => KeyOf(candidates[i])));
  }

  lemma BucketGrows(candidates: seq<Candidate>, c: Candidate, i: nat)
    requires i < |KeysOf(candidates)| && KeysOf(candidates)[i] == KeyOf(c)
    ensures BucketsOf(candidates + [c]) == BucketsOf(candidates)[i := Bucket(KeyOf(c), GroupOf(candidates, KeyOf(c)) + [c])]
  {
    hide KeysOf, GroupOf, KeyOf;
    var key, keys := KeyOf(c), KeysOf(candidates);
    KeysSnoc(candidates, c);
    KeysAreDistinct(candidates);
    assert keys[i] in keys;
    forall j | 0 <= j < |keys|
      ensures GroupOf(candidates + [c], keys[j]) == GroupOf(candidates, keys[j]) + if j == i then [c] else []
    {
      GroupSnoc(candidates, c, keys[j]);
      assert keys[j] == key <==> j == i;
    }
    var after := BucketsOf(candidates)[i := Bucket(key, GroupOf(candidates, key) + [c])];
    forall j | 0 <= j < |keys| ensures BucketsOf(candidates + [c])[j] == after[j] {
      assert GroupOf(candidates, keys[j]) + [] == GroupOf(candidates, keys[j]);
    }
    assert BucketsOf(candidates + [c]) == after;
  }

  lemma BucketBegins(candidates: seq<Candidate>, c: Candidate)
    requires KeyOf(c) !in KeysOf(candidates)
    ensures BucketsOf(candidates + [c]) == BucketsOf(candidates) + [Bucket(KeyOf(c), [c])]
  {
    hide KeysOf, GroupOf, KeyOf;
    var key, keys := KeyOf(c), KeysOf(candidates);
    KeysSnoc(candidates, c);
    KeysAreExact(candidates);
    GroupSnoc(candidates, c, key);
    assert GroupOf(candidates, key) == [] && [] + [c] == [c];
    forall j | 0 <= j < |keys| ensures GroupOf(candidates + [c], keys[j]) == GroupOf(candidates, keys[j]) {
      GroupSnoc(candidates, c, keys[j]);
      assert keys[j] in keys;
    }
  }

  lemma NextBucket(candidates: seq<Candidate>, c: Candidate)
    ensures
      var before := BucketsOf(candidates);
      var i := IndexOfBucket(before, KeyOf(c));
      BucketsOf(candidates + [c]) ==
        if i == |before| then before + [Bucket(KeyOf(c), [c])] else before[i := Bucket(KeyOf(c), before[i].group + [c])]
  {
    hide KeysOf, GroupOf, KeyOf, IndexOfBucket;
    var keys, before := KeysOf(candidates), BucketsOf(candidates);
    var i := IndexOfBucket(before, KeyOf(c));
    if i < |before| {
      assert keys[i] == before[i].key;
      BucketGrows(candidates, c, i);
    } else {
      assert forall j :: 0 <= j < |keys| ==> before[j].key == keys[j];
      BucketBegins(candidates, c);
    }
  }

  /** `_merge_candidates` */
  method MergeCandidates(candidates: seq<Candidate>) returns (merged: seq<Candidate>)
    ensures merged == Merged(candidates)
  {
    hide GroupOf, KeysOf, MergedGroup;
    var buckets: seq<Bucket> := [];
    assert BucketsOf([]) == [] by {
      NoBuckets();
    }
    for n := 0 to |candidates|
      invariant buckets == BucketsOf(candidates[..n])
    {
      var c := candidates[n];
      NextBucket(candidates[..n], c);
      assert candidates[..n + 1] == candidates[..n] + [c];
      var i := IndexOfBucket(buckets, KeyOf(c));
      if i == |buckets| {
        buckets := buckets + [Bucket(KeyOf(c), [c])];
      } else {
        buckets := buckets[i := Bucket(KeyOf(c), buckets[i].group + [c])];
      }
    }
    assert candidates[..|candidates|] == candidates;
    KeysAreExact(candidates);
    merged := [];
    for k := 0 to |buckets|
      invariant |merged| == k && forall j :: 0 <= j < k ==> merged[j] == Merged(candidates)[j]
    {
      var m := MergeBucket(buckets[k].key, buckets[k].group);
      merged := merged + [m];
    }
  }

  lemma NoBuckets()
    ensures BucketsOf([]) == []
  {}

  method MergeBucket(key: BucketKey, group: seq<Candidate>) returns (m: Candidate)
    requires group != []
    ensures m == MergedGroup(key, group)
  {
    var evidence := Dedupe(AllEvidence(group));
    var affected := Dedupe(AllOptions(group));
    var sources := Dedupe(AllSources(group));
    var retryable := exists i :: 0 <= i < |group| && group[i].retryable;
    var confidence := if |sources| >= 2 then High else Highest(group);
    return Candidate(key.0, key.1, retryable, evidence, affected, PreferredRule(group), confidence, sources);
  }

  /** `_classify` */
  method Classify(candidates: seq<Candidate>, allowWrite: bool) returns (r: Classification)
    ensures r == ClassificationOf(candidates, allowWrite)
  {
    if candidates == [] {
      return Classification("unknown_failure", UnknownRoute, Low, [], [], false, false, None);
    }
    var merged := MergeCandidates(candidates);
    SomethingMerged(candidates);
    var c := Select(merged);
    var write := allowWrite && c.route == OptionRelated && c.confidence == High && c.affected != [];
    return Classification(c.category, c.route, c.confidence, c.evidence, c.affected, c.retryable, write, Some(c.ruleId));
  }

  /** The chosen position holds a greatest key, and the first such. */
  lemma {:induction false} FirstGreatestIsGreatest(candidates: seq<Candidate>)
    requires candidates != []
    ensures forall j :: 0 <= j < |candidates| ==>
      LexLeq(SelectionKey(candidates[j]), SelectionKey(candidates[FirstGreatest(candidates)]))
    ensures forall j :: 0 <= j < FirstGreatest(candidates) ==>
      !LexLeq(SelectionKey(candidates[FirstGreatest(candidates)]), SelectionKey(candidates[j]))
  {
    hide SelectionKey, LexLeq;
    var n := |candidates| - 1;
    LexTotal(SelectionKey(candidates[n]), SelectionKey(candidates[n]));
    if n > 0 {
      FirstGreatestIsGreatest(candidates[..n]);
      var k := FirstGreatest(candidates[..n]);
      LexTotal(SelectionKey(candidates[n]), SelectionKey(candidates[k]));
      forall j | 0 <= j < n
        ensures !LexLeq(SelectionKey(candidates[n]), SelectionKey(candidates[k])) ==>
          LexLeq(SelectionKey(candidates[j]), SelectionKey(candidates[n]))
          && !LexLeq(SelectionKey(candidates[n]), SelectionKey(candidates[j]))
      {
        assert candidates[..n][j] == candidates[j];
        if LexLeq(SelectionKey(candidates[k]), SelectionKey(candidates[n])) {
          LexTransitive(SelectionKey(candidates[j]), SelectionKey(candidates[k]), SelectionKey(candidates[n]));
        }
        if LexLeq(SelectionKey(candidates[n]), SelectionKey(candidates[j])) {
          LexTransitive(SelectionKey(candidates[n]), SelectionKey(candidates[j]), SelectionKey(candidates[k]));
        }
      }
    }
  }

  lemma {:induction false} HighEnvironmentMembers(candidates: seq<Candidate>)
    ensures forall c :: c in HighEnvironment(candidates) <==> c in candidates && IsHighEnvironment(c)
  {
    if candidates != [] {
      HighEnvironmentMembers(candidates[..|candidates| - 1]);
      assert candidates == candidates[..|candidates| - 1] + [candidates[|candidates| - 1]];
    }
  }

  lemma {:induction false} SourcesOfGroup(group: seq<Candidate>)
    ensures forall x :: x in AllSources(group) <==> exists i :: 0 <= i < |group| && x in group[i].sources
  {
    if group != [] {
      SourcesOfGroup(group[..|group| - 1]);
      assert forall i :: 0 <= i < |group| - 1 ==> group[..|group| - 1][i] == group[i];
    }
  }

  lemma {:induction false} HighestIff(group: seq<Candidate>)
    ensures Highest(group) == High <==> exists i :: 0 <= i < |group| && group[i].confidence == High
    ensures Highest(group) == Low <==> forall i :: 0 <= i < |group| ==> group[i].confidence == Low
  {
    if group != [] {
      HighestIff(group[..|group| - 1]);
      assert forall i :: 0 <= i < |group| - 1 ==> group[..|group| - 1][i] == group[i];
    }
  }

  lemma DistinctAt<T>(s: seq<T>, i: nat)
    requires i < |Distinct(s)|
    ensures Distinct(s)[i] in s
  {
    DistinctMembers(s);
    assert Distinct(s)[i] in Distinct(s);
  }

  lemma TwoDistinct<T>(s: seq<T>)
    ensures |Distinct(s)| >= 2 <==> exists x, y :: x in s && y in s && x != y
  {
    DistinctMembers(s);
    var d := Distinct(s);
    if |d| >= 2 {
      DistinctAt(s, 0);
      DistinctAt(s, 1);
      assert d[0] != d[1];
    } else if |d| == 1 {
      assert forall x :: x in s ==> x in d;
    } else {
      assert forall x :: x !in d;
    }
  }

  /** Two different sources among the candidates of a bucket. */
  ghost predicate Corroborated(candidates: seq<Candidate>, key: BucketKey) {
    exists a, b, x, y ::
      a in candidates && b in candidates && KeyOf(a) == key && KeyOf(b) == key
      && x in a.sources && y in b.sources && x != y
  }

  ghost predicate Claims(candidates: seq<Candidate>, key: BucketKey, confidence: Confidence) {
    exists c :: c in candidates && KeyOf(c) == key && c.confidence == confidence
  }

  /** The confidence of a bucket in terms of its members, without their order and number. */
  ghost function BucketConfidence(candidates: seq<Candidate>, key: BucketKey): Confidence {
    if Corroborated(candidates, key) || Claims(candidates, key, High) then High
    else if Claims(candidates, key, Medium) then Medium
    else Low
  }

  lemma MergedConfidenceIff(candidates: seq<Candidate>, key: BucketKey)
    ensures MergedConfidence(GroupOf(candidates, key)) == BucketConfidence(candidates, key)
  {
    hide GroupOf, Distinct, Highest, AllSources, Corroborated, Claims;
    var group := GroupOf(candidates, key);
    GroupMembers(candidates, key);
    SourcesOfGroup(group);
    TwoDistinct(AllSources(group));
    CorroboratedIff(candidates, key, group);
    HighestIsClaimed(candidates, key, group);
  }

  lemma HighestIsClaimed(candidates: seq<Candidate>, key: BucketKey, group: seq<Candidate>)
    requires forall c :: c in group <==> c in candidates && KeyOf(c) == key
    ensures Highest(group) == High <==> Claims(candidates, key, High)
    ensures Highest(group) == Low <==> !Claims(candidates, key, High) && !Claims(candidates, key, Medium)
  {
    hide Highest;
    HighestIff(group);
    ClaimedIff(candidates, key, group, High);
    ClaimedIff(candidates, key, group, Medium);
    assert forall i :: 0 <= i < |group| ==> group[i].confidence in {Low, Medium, High};
  }

  lemma ClaimedIff(candidates: seq<Candidate>, key: BucketKey, group: seq<Candidate>, confidence: Confidence)
    requires forall c :: c in group <==> c in candidates && KeyOf(c) == key
    ensures Claims(candidates, key, confidence) <==> exists i :: 0 <= i < |group| && group[i].confidence == confidence
  {
    if c :| c in candidates && KeyOf(c) == key && c.confidence == confidence {
      assert c in group;
      var i :| 0 <= i < |group| && group[i] == c;
      assert group[i].confidence == confidence;
    }
    if i :| 0 <= i < |group| && group[i].confidence == confidence {
      assert group[i] in group;
    }
  }

  lemma CorroboratedIff(candidates: seq<Candidate>, key: BucketKey, group: seq<Candidate>)
    requires forall c :: c in group <==> c in candidates && KeyOf(c) == key
    requires forall x :: x in AllSources(group) <==> exists i :: 0 <= i < |group| && x in group[i].sources
    ensures Corroborated(candidates, key) <==> exists x, y :: x in AllSources(group) && y in AllSources(group) && x != y
  {
    hide AllSources;
    if Corroborated(candidates, key) {
      var a, b, x, y :|
        a in candidates && b in candidates && KeyOf(a) == key && KeyOf(b) == key
        && x in a.sources && y in b.sources && x != y;
      assert a in group && b in group;
      assert x in AllSources(group) && y in AllSources(group);
    }
    if x, y :| x in AllSources(group) && y in AllSources(group) && x != y {
      var i :| 0 <= i < |group| && x in group[i].sources;
      var j :| 0 <= j < |group| && y in group[j].sources;
      assert group[i] in group && group[j] in group;
    }
  }

  /** What the merged candidates are, without their order. */
  lemma MergedMembers(candidates: seq<Candidate>)
    ensures forall m :: m in Merged(candidates) ==>
      GroupOf(candidates, KeyOf(m)) != [] && m == MergedGroup(KeyOf(m), GroupOf(candidates, KeyOf(m)))
    ensures forall key :: GroupOf(candidates, key) != [] ==> MergedGroup(key, GroupOf(candidates, key)) in Merged(candidates)
  {
    hide GroupOf, KeysOf, AllEvidence, AllOptions, AllSources, PreferredRule, MergedConfidence, Distinct;
    KeysAreExact(candidates);
    var keys, merged := KeysOf(candidates), Merged(candidates);
    forall m | m in merged
      ensures GroupOf(candidates, KeyOf(m)) != [] && m == MergedGroup(KeyOf(m), GroupOf(candidates, KeyOf(m)))
    {
      var i :| 0 <= i < |merged| && merged[i] == m;
      assert keys[i] in keys;
    }
    forall key | GroupOf(candidates, key) != [] ensures MergedGroup(key, GroupOf(candidates, key)) in merged {
      assert key in keys;
      var i :| 0 <= i < |keys| && keys[i] == key;
      assert merged[i] == MergedGroup(key, GroupOf(candidates, key));
    }
  }

  /** The buckets that there are, with their confidence. */
  ghost predicate HasBucket(candidates: seq<Candidate>, route: Route, confidence: Confidence) {
    exists c :: c in candidates && c.route == route && BucketConfidence(candidates, KeyOf(c)) == confidence
  }

  lemma MergedHasBucket(candidates: seq<Candidate>, route: Route, confidence: Confidence)
    ensures HasBucket(candidates, route, confidence) <==>
      exists m :: m in Merged(candidates) && m.route == route && m.confidence == confidence
  {
    hide GroupOf, Merged, BucketConfidence, AllEvidence, AllOptions, AllSources, PreferredRule, MergedConfidence, Distinct;
    MergedMembers(candidates);
    if HasBucket(candidates, route, confidence) {
      var c :| c in candidates && c.route == route && BucketConfidence(candidates, KeyOf(c)) == confidence;
      GroupMembers(candidates, KeyOf(c));
      assert c in GroupOf(candidates, KeyOf(c));
      MergedConfidenceIff(candidates, KeyOf(c));
      var m := MergedGroup(KeyOf(c), GroupOf(candidates, KeyOf(c)));
      assert m in Merged(candidates) && m.route == route && m.confidence == confidence;
    }
    if m :| m in Merged(candidates) && m.route == route && m.confidence == confidence {
      var group := GroupOf(candidates, KeyOf(m));
      GroupMembers(candidates, KeyOf(m));
      MergedConfidenceIff(candidates, KeyOf(m));
      var c := group[0];
      assert c in group;
      assert c.route == route && BucketConfidence(candidates, KeyOf(c)) == confidence;
    }
  }

  /** The selection: certain environment evidence if there is any, else the surest, and then the route that blames most. */
  lemma SelectedIsSurest(merged: seq<Candidate>)
    requires merged != []
    ensures var s := Select(merged);
      && s in merged
      && ((exists m :: m in merged && IsHighEnvironment(m)) ==> IsHighEnvironment(s))
      && ((forall m :: m in merged ==> !IsHighEnvironment(m)) ==>
            forall m :: m in merged ==>
              Rank(m.confidence) < Rank(s.confidence)
              || (m.confidence == s.confidence && RouteRank(m.route) <= RouteRank(s.route)))
  {
    hide FirstGreatest;
    var high := HighEnvironment(merged);
    HighEnvironmentMembers(merged);
    hide HighEnvironment;
    if high != [] {
      assert high[FirstGreatest(high)] in high;
    } else {
      FirstGreatestIsGreatest(merged);
      var s := merged[FirstGreatest(merged)];
      forall m | m in merged
        ensures Rank(m.confidence) < Rank(s.confidence)
          || (m.confidence == s.confidence && RouteRank(m.route) <= RouteRank(s.route))
      {
        var j :| 0 <= j < |merged| && merged[j] == m;
        KeyDecides(m, s);
      }
      assert forall m :: m in merged && IsHighEnvironment(m) ==> m in high;
    }
  }

  lemma KeyDecides(m: Candidate, s: Candidate)
    requires LexLeq(SelectionKey(m), SelectionKey(s))
    ensures Rank(m.confidence) < Rank(s.confidence)
      || (m.confidence == s.confidence && RouteRank(m.route) <= RouteRank(s.route))
  {
    var a, b := SelectionKey(m), SelectionKey(s);
    assert a[0] == Rank(m.confidence) && b[0] == Rank(s.confidence);
    assert a[1..][0] == RouteRank(m.route) && b[1..][0] == RouteRank(s.route);
  }

  /**
   An option is blamed with certainty if and only if a certain bucket blames one and no certain bucket
   blames the environment; it is written down if, besides, that is allowed and the selection names options.
   */
  lemma BlameIsConservative(candidates: seq<Candidate>, allowWrite: bool)
    ensures
      var r := ClassificationOf(candidates, allowWrite);
      && (r.route == OptionRelated && r.confidence == High <==>
            HasBucket(candidates, OptionRelated, High) && !HasBucket(candidates, EnvironmentRelated, High))
      && (r.writeFailedCombos <==>
            && allowWrite && r.affected != []
            && HasBucket(candidates, OptionRelated, High) && !HasBucket(candidates, EnvironmentRelated, High))
      && (HasBucket(candidates, EnvironmentRelated, High) ==> r.route == EnvironmentRelated && r.confidence == High)
  {
    if candidates == [] {
      assert forall route, confidence :: !HasBucket(candidates, route, confidence);
    } else {
      hide Merged, Select, HasBucket;
      ReportedIsSurest(candidates, allowWrite);
    }
  }

  /** Matched rules are `MEDIUM` each: then an option is blamed for good only when two different sources agree on it. */
  lemma BlameNeedsTwoSources(candidates: seq<Candidate>, allowWrite: bool)
    requires forall c :: c in candidates ==> c.confidence == Medium
    requires ClassificationOf(candidates, allowWrite).writeFailedCombos
    ensures exists c :: c in candidates && c.route == OptionRelated && Corroborated(candidates, KeyOf(c))
    ensures forall c :: c in candidates && c.route == EnvironmentRelated ==> !Corroborated(candidates, KeyOf(c))
  {
    hide ClassificationOf, Corroborated;
    BlameIsConservative(candidates, allowWrite);
    var c :| c in candidates && c.route == OptionRelated && BucketConfidence(candidates, KeyOf(c)) == High;
    assert Corroborated(candidates, KeyOf(c));
    forall e | e in candidates && e.route == EnvironmentRelated ensures !Corroborated(candidates, KeyOf(e)) {
      assert BucketConfidence(candidates, KeyOf(e)) != High;
    }
  }

  lemma SameMembersSameConfidence(a: seq<Candidate>, b: seq<Candidate>, key: BucketKey)
    requires forall c :: c in a <==> c in b
    ensures BucketConfidence(a, key) == BucketConfidence(b, key)
  {
    assert Corroborated(a, key) <==> Corroborated(b, key);
    assert Claims(a, key, High) <==> Claims(b, key, High);
    assert Claims(a, key, Medium) <==> Claims(b, key, Medium);
  }

  lemma SameMembersSameBuckets(a: seq<Candidate>, b: seq<Candidate>, route: Route, confidence: Confidence)
    requires forall c :: c in a <==> c in b
    ensures HasBucket(a, route, confidence) <==> HasBucket(b, route, confidence)
  {
    forall key ensures BucketConfidence(a, key) == BucketConfidence(b, key) {
      SameMembersSameConfidence(a, b, key);
    }
    hide BucketConfidence;
  }

  /** One of the buckets: a certain environment one if there is any, else one that no other outranks. */
  ghost predicate IsSurest(candidates: seq<Candidate>, route: Route, confidence: Confidence) {
    && HasBucket(candidates, route, confidence)
    && (HasBucket(candidates, EnvironmentRelated, High) ==> route == EnvironmentRelated && confidence == High)
    && (!HasBucket(candidates, EnvironmentRelated, High) ==>
          forall r, c :: HasBucket(candidates, r, c) ==>
            Rank(c) < Rank(confidence) || (c == confidence && RouteRank(r) <= RouteRank(route)))
  }

  lemma ReportedIsSurest(candidates: seq<Candidate>, allowWrite: bool)
    requires candidates != []
    ensures var r := ClassificationOf(candidates, allowWrite); IsSurest(candidates, r.route, r.confidence)
  {
    hide Merged, Select, HasBucket;
    SomethingMerged(candidates);
    forall route, confidence
      ensures HasBucket(candidates, route, confidence) <==>
        exists m :: m in Merged(candidates) && m.route == route && m.confidence == confidence
    {
      MergedHasBucket(candidates, route, confidence);
    }
    SelectedIsSurest(Merged(candidates));
  }

  /** Without certain environment evidence the surest confidence is reported, and for it an option before the environment before neither. */
  lemma ReportedOrder(candidates: seq<Candidate>, allowWrite: bool)
    requires candidates != [] && !HasBucket(candidates, EnvironmentRelated, High)
    ensures
      var r := ClassificationOf(candidates, allowWrite);
      && (forall route :: HasBucket(candidates, route, High) ==> r.confidence == High)
      && (forall route :: HasBucket(candidates, route, Medium) ==> r.confidence != Low)
      && (HasBucket(candidates, OptionRelated, r.confidence) ==> r.route == OptionRelated)
      && (HasBucket(candidates, EnvironmentRelated, r.confidence) ==> r.route != UnknownRoute)
  {
    hide ClassificationOf, HasBucket;
    ReportedIsSurest(candidates, allowWrite);
  }

  lemma SurestIsUnique(candidates: seq<Candidate>, r: Route, c: Confidence, r': Route, c': Confidence)
    requires IsSurest(candidates, r, c) && IsSurest(candidates, r', c')
    ensures r == r' && c == c'
  {
    hide HasBucket;
  }

  lemma SurestForgetsOrder(a: seq<Candidate>, b: seq<Candidate>, route: Route, confidence: Confidence)
    requires forall c :: c in a <==> c in b
    requires IsSurest(b, route, confidence)
    ensures IsSurest(a, route, confidence)
  {
    hide HasBucket;
    forall r, c ensures HasBucket(a, r, c) <==> HasBucket(b, r, c) {
      SameMembersSameBuckets(a, b, r, c);
    }
  }

  lemma SameEmptiness<T>(a: seq<T>, b: seq<T>)
    requires forall c :: c in a <==> c in b
    ensures a == [] <==> b == []
  {
    if a != [] {
      assert a[0] in a;
    }
    if b != [] {
      assert b[0] in b;
    }
  }

  /** Neither the order nor the repetition of the matches changes the reported route and confidence. */
  lemma LogOrderIsIrrelevant(a: seq<Candidate>, b: seq<Candidate>, allowWrite: bool)
    requires forall c :: c in a <==> c in b
    ensures
      var r, s := ClassificationOf(a, allowWrite), ClassificationOf(b, allowWrite);
      r.route == s.route && r.confidence == s.confidence
  {
    SameEmptiness(a, b);
    if a != [] {
      hide ClassificationOf, IsSurest;
      var r, s := ClassificationOf(a, allowWrite), ClassificationOf(b, allowWrite);
      ReportedIsSurest(a, allowWrite);
      ReportedIsSurest(b, allowWrite);
      SurestForgetsOrder(a, b, s.route, s.confidence);
      SurestIsUnique(a, r.route, r.confidence, s.route, s.confidence);
    }
  }
}
