/**
 How far a classification depends on the order of the matches.  With the rules of the two tables it
 does not; with arbitrary rules it can, and the write flag with it.
 */
module ClassifierOrder {
  import opened Wrappers
  import opened FiniteSets
  import opened Sorting
  import opened FailureClassifier
  import CandidateIdentity

  predicate IsStatus(c: Candidate) {
    STATUS_PREFIX <= c.ruleId
  }

  /** Within a bucket the log rules agree and the status rules agree, and a rule belongs to one bucket. */
  ghost predicate RulesAgree(candidates: seq<Candidate>) {
    && (forall a, b :: a in candidates && b in candidates && KeyOf(a) == KeyOf(b) && IsStatus(a) == IsStatus(b) ==>
          a.ruleId == b.ruleId)
    && (forall a, b :: a in candidates && b in candidates && a.ruleId == b.ruleId ==> KeyOf(a) == KeyOf(b))
  }

  /** The preferred rule is one of the group's, and a status rule only if all are. */
  lemma {:induction false} PreferredIsAMember(group: seq<Candidate>)
    requires group != []
    ensures exists c ::
      c in group && c.ruleId == PreferredRule(group) && (IsStatus(c) ==> forall d :: d in group ==> IsStatus(d))
  {
    if exists i :: 0 <= i < |group| && !(STATUS_PREFIX <= group[i].ruleId) {
      FirstRuleIsAMember(group);
    } else {
      assert group[0] in group;
      forall d | d in group ensures IsStatus(d) {
        var i :| 0 <= i < |group| && group[i] == d;
      }
    }
  }

  lemma {:induction false} FirstRuleIsAMember(group: seq<Candidate>)
    requires exists i :: 0 <= i < |group| && !(STATUS_PREFIX <= group[i].ruleId)
    ensures exists c :: c in group && c.ruleId == FirstRule(group) && !IsStatus(c)
  {
    if !(STATUS_PREFIX <= group[0].ruleId) {
      assert group[0] in group;
    } else {
      var i :| 0 <= i < |group| && !(STATUS_PREFIX <= group[i].ruleId);
      assert group[1..][i - 1] == group[i];
      FirstRuleIsAMember(group[1..]);
    }
  }

  ghost predicate SameMembers<T(!new)>(a: seq<T>, b: seq<T>) {
    forall x :: x in a <==> x in b
  }

  lemma PreferredForgetsOrder(candidates: seq<Candidate>, key: BucketKey, g: seq<Candidate>, h: seq<Candidate>)
    requires RulesAgree(candidates) && SameMembers(g, h) && g != [] && h != []
    requires forall c :: c in g ==> c in candidates && KeyOf(c) == key
    ensures PreferredRule(g) == PreferredRule(h)
  {
    hide PreferredRule;
    PreferredIsAMember(g);
    PreferredIsAMember(h);
    var c :| c in g && c.ruleId == PreferredRule(g) && (IsStatus(c) ==> forall d :: d in g ==> IsStatus(d));
    var d :| d in h && d.ruleId == PreferredRule(h) && (IsStatus(d) ==> forall e :: e in h ==> IsStatus(e));
    assert IsStatus(c) == IsStatus(d);
  }

  lemma DistinctForgetsOrder<T(!new)>(a: seq<T>, b: seq<T>)
    requires SameMembers(a, b)
    ensures |Distinct(a)| == |Distinct(b)| && SameMembers(Distinct(a), Distinct(b))
  {
    DistinctMembers(a);
    DistinctMembers(b);
    SameMembersSameMultiset(Distinct(a), Distinct(b));
    assert |multiset(Distinct(a))| == |multiset(Distinct(b))|;
  }

  lemma {:induction false} OptionsOfGroup(group: seq<Candidate>)
    ensures forall x :: x in AllOptions(group) <==> exists i :: 0 <= i < |group| && x in group[i].affected
  {
    if group != [] {
      OptionsOfGroup(group[..|group| - 1]);
      assert forall i :: 0 <= i < |group| - 1 ==> group[..|group| - 1][i] == group[i];
    }
  }

  lemma {:induction false} EvidenceOfGroup(group: seq<Candidate>)
    ensures forall x :: x in AllEvidence(group) <==> exists i :: 0 <= i < |group| && x in group[i].evidence
  {
    if group != [] {
      EvidenceOfGroup(group[..|group| - 1]);
      assert forall i :: 0 <= i < |group| - 1 ==> group[..|group| - 1][i] == group[i];
    }
  }

  lemma OptionsForgetOrder(g: seq<Candidate>, h: seq<Candidate>)
    requires SameMembers(g, h)
    ensures SameMembers(AllOptions(g), AllOptions(h))
  {
    OptionsOfGroup(g);
    OptionsOfGroup(h);
    hide AllOptions;
    forall x ensures x in AllOptions(g) <==> x in AllOptions(h) {
      if i :| 0 <= i < |g| && x in g[i].affected {
        assert g[i] in h;
        var j :| 0 <= j < |h| && h[j] == g[i];
      }
      if i :| 0 <= i < |h| && x in h[i].affected {
        assert h[i] in g;
        var j :| 0 <= j < |g| && g[j] == h[i];
      }
    }
  }

  lemma EvidenceForgetsOrder(g: seq<Candidate>, h: seq<Candidate>)
    requires SameMembers(g, h)
    ensures SameMembers(AllEvidence(g), AllEvidence(h))
  {
    EvidenceOfGroup(g);
    EvidenceOfGroup(h);
    hide AllEvidence;
    forall x ensures x in AllEvidence(g) <==> x in AllEvidence(h) {
      if i :| 0 <= i < |g| && x in g[i].evidence {
        assert g[i] in h;
        var j :| 0 <= j < |h| && h[j] == g[i];
      }
      if i :| 0 <= i < |h| && x in h[i].evidence {
        assert h[i] in g;
        var j :| 0 <= j < |g| && g[j] == h[i];
      }
    }
  }

  lemma RetryableForgetsOrder(g: seq<Candidate>, h: seq<Candidate>)
    requires SameMembers(g, h)
    ensures (exists i :: 0 <= i < |g| && g[i].retryable) <==> (exists i :: 0 <= i < |h| && h[i].retryable)
  {
    if i :| 0 <= i < |g| && g[i].retryable {
      assert g[i] in h;
      var j :| 0 <= j < |h| && h[j] == g[i];
    }
    if i :| 0 <= i < |h| && h[i].retryable {
      assert h[i] in g;
      var j :| 0 <= j < |g| && g[j] == h[i];
    }
  }

  /** Equal up to the order of evidence and options. */
  ghost predicate Alike(m: Candidate, n: Candidate) {
    && m.category == n.category && m.route == n.route && m.retryable == n.retryable
    && m.confidence == n.confidence && m.ruleId == n.ruleId
    && |m.evidence| == |n.evidence| && SameMembers(m.evidence, n.evidence)
    && SameMembers(m.affected, n.affected)
  }

  lemma GroupsForgetOrder(a: seq<Candidate>, b: seq<Candidate>, key: BucketKey)
    requires SameMembers(a, b)
    ensures SameMembers(GroupOf(a, key), GroupOf(b, key))
    ensures forall c :: c in GroupOf(a, key) ==> c in a && KeyOf(c) == key
    ensures GroupOf(a, key) == [] <==> GroupOf(b, key) == []
  {
    GroupMembers(a, key);
    GroupMembers(b, key);
    hide GroupOf, KeyOf;
    SameEmptiness(GroupOf(a, key), GroupOf(b, key));
  }

  lemma ConfidenceForgetsOrder(a: seq<Candidate>, b: seq<Candidate>, key: BucketKey)
    requires SameMembers(a, b)
    ensures MergedConfidence(GroupOf(a, key)) == MergedConfidence(GroupOf(b, key))
  {
    hide MergedConfidence, GroupOf;
    MergedConfidenceIff(a, key);
    MergedConfidenceIff(b, key);
    SameMembersSameConfidence(a, b, key);
  }

  /** The same matches in another order merge to the same bucket, up to the order inside it. */
  lemma BucketsAreAlike(a: seq<Candidate>, b: seq<Candidate>, key: BucketKey)
    requires SameMembers(a, b) && RulesAgree(a) && GroupOf(a, key) != []
    ensures GroupOf(b, key) != []
    ensures Alike(MergedGroup(key, GroupOf(a, key)), MergedGroup(key, GroupOf(b, key)))
  {
    hide GroupOf, PreferredRule, MergedConfidence, Distinct, AllOptions, AllEvidence, AllSources, RulesAgree, SameMembers;
    GroupsForgetOrder(a, b, key);
    var g, h := GroupOf(a, key), GroupOf(b, key);
    PreferredForgetsOrder(a, key, g, h);
    ConfidenceForgetsOrder(a, b, key);
    OptionsForgetOrder(g, h);
    EvidenceForgetsOrder(g, h);
    RetryableForgetsOrder(g, h);
    DistinctForgetsOrder(AllOptions(g), AllOptions(h));
    DistinctForgetsOrder(AllEvidence(g), AllEvidence(h));
  }

  /** Every merged candidate has its like among the others. */
  lemma LikeInOther(a: seq<Candidate>, b: seq<Candidate>, m: Candidate) returns (n: Candidate)
    requires SameMembers(a, b) && RulesAgree(a) && m in Merged(a)
    ensures n in Merged(b) && Alike(m, n)
  {
    hide GroupOf, MergedGroup, Merged, RulesAgree, SameMembers, Alike;
    MergedMembers(a);
    MergedMembers(b);
    BucketsAreAlike(a, b, KeyOf(m));
    n := MergedGroup(KeyOf(m), GroupOf(b, KeyOf(m)));
  }

  /** Two merged candidates of one rule are the same. */
  lemma RuleIsOneBucket(candidates: seq<Candidate>, m: Candidate, n: Candidate)
    requires RulesAgree(candidates) && m in Merged(candidates) && n in Merged(candidates) && m.ruleId == n.ruleId
    ensures m == n
  {
    hide Merged, Distinct, AllOptions, AllEvidence, AllSources, MergedConfidence, PreferredRule, GroupOf;
    MergedMembers(candidates);
    var g, h := GroupOf(candidates, KeyOf(m)), GroupOf(candidates, KeyOf(n));
    GroupMembers(candidates, KeyOf(m));
    GroupMembers(candidates, KeyOf(n));
    PreferredIsAMember(g);
    PreferredIsAMember(h);
    var c :| c in g && c.ruleId == PreferredRule(g);
    var d :| d in h && d.ruleId == PreferredRule(h);
    assert KeyOf(c) == KeyOf(d);
  }

  /** Those among which the selection looks for the greatest. */
  ghost predicate InPool(merged: seq<Candidate>, m: Candidate) {
    m in merged && ((exists x :: x in merged && IsHighEnvironment(x)) ==> IsHighEnvironment(m))
  }

  lemma SelectedIsGreatest(merged: seq<Candidate>)
    requires merged != []
    ensures InPool(merged, Select(merged))
    ensures forall m :: InPool(merged, m) ==> LexLeq(SelectionKey(m), SelectionKey(Select(merged)))
  {
    hide FirstGreatest, SelectionKey, LexLeq, IsHighEnvironment;
    var high := HighEnvironment(merged);
    HighEnvironmentMembers(merged);
    hide HighEnvironment;
    var pool := if high != [] then high else merged;
    FirstGreatestIsGreatest(pool);
    assert pool[FirstGreatest(pool)] in pool;
    assert high != [] ==> high[0] in high;
    forall m | InPool(merged, m) ensures LexLeq(SelectionKey(m), SelectionKey(Select(merged))) {
      assert m in pool;
      var i :| 0 <= i < |pool| && pool[i] == m;
    }
  }

  lemma AlikeKeys(m: Candidate, n: Candidate)
    requires Alike(m, n)
    ensures SelectionKey(m) == SelectionKey(n) && IsHighEnvironment(m) == IsHighEnvironment(n)
  {}

  lemma KeyHoldsRule(m: Candidate, n: Candidate)
    requires SelectionKey(m) == SelectionKey(n)
    ensures m.ruleId == n.ruleId
  {
    var a, b := SelectionKey(m), SelectionKey(n);
    assert a[4..] == CandidateIdentity.Codes(m.ruleId) && b[4..] == CandidateIdentity.Codes(n.ruleId);
    CandidateIdentity.CodesAreInjective(m.ruleId, n.ruleId);
  }

  lemma PoolForgetsOrder(a: seq<Candidate>, b: seq<Candidate>, m: Candidate, n: Candidate)
    requires SameMembers(a, b) && RulesAgree(a) && RulesAgree(b)
    requires InPool(Merged(a), m) && n in Merged(b) && Alike(m, n)
    ensures InPool(Merged(b), n)
  {
    hide Merged, RulesAgree, SameMembers, Alike, IsHighEnvironment;
    AlikeKeys(m, n);
    if x :| x in Merged(b) && IsHighEnvironment(x) {
      assert SameMembers(b, a) by {
        Swapped(a, b);
      }
      var y := LikeInOther(b, a, x);
      AlikeKeys(x, y);
    }
  }

  lemma Swapped<T(!new)>(a: seq<T>, b: seq<T>)
    requires SameMembers(a, b)
    ensures SameMembers(b, a)
  {}

  lemma AgreementForgetsOrder(a: seq<Candidate>, b: seq<Candidate>)
    requires SameMembers(a, b) && RulesAgree(a)
    ensures RulesAgree(b)
  {}

  /** The selected candidate is the same up to the order of its evidence and options. */
  lemma SelectionForgetsOrder(a: seq<Candidate>, b: seq<Candidate>)
    requires SameMembers(a, b) && RulesAgree(a) && Merged(a) != [] && Merged(b) != []
    ensures Alike(Select(Merged(a)), Select(Merged(b)))
  {
    hide Merged, RulesAgree, SameMembers, Alike, Select, InPool, SelectionKey, LexLeq;
    AgreementForgetsOrder(a, b);
    Swapped(a, b);
    SelectedIsGreatest(Merged(a));
    SelectedIsGreatest(Merged(b));
    var s, t := Select(Merged(a)), Select(Merged(b));
    InPoolIsIn(Merged(a), s);
    InPoolIsIn(Merged(b), t);
    var s' := LikeInOther(a, b, s);
    var t' := LikeInOther(b, a, t);
    PoolForgetsOrder(a, b, s, s');
    PoolForgetsOrder(b, a, t, t');
    AlikeKeys(s, s');
    AlikeKeys(t, t');
    LexAntisymmetric(SelectionKey(s), SelectionKey(t));
    KeyHoldsRule(s', t);
    RuleIsOneBucket(b, s', t);
  }

  lemma InPoolIsIn(merged: seq<Candidate>, m: Candidate)
    requires InPool(merged, m)
    ensures m in merged
  {}

  /** Equal up to the order of evidence and options. */
  ghost predicate SameVerdict(r: Classification, s: Classification) {
    && r.category == s.category && r.route == s.route && r.confidence == s.confidence && r.retryable == s.retryable
    && r.ruleId == s.ruleId && r.writeFailedCombos == s.writeFailedCombos
    && SameMembers(r.evidence, s.evidence) && SameMembers(r.affected, s.affected)
  }

  /** With rules that agree, order and repetition of the matches change nothing but the order of evidence and options. */
  lemma AgreeingRulesForgetOrder(a: seq<Candidate>, b: seq<Candidate>, allowWrite: bool)
    requires SameMembers(a, b) && RulesAgree(a)
    ensures SameVerdict(ClassificationOf(a, allowWrite), ClassificationOf(b, allowWrite))
  {
    hide Merged, Select, RulesAgree;
    SameEmptiness(a, b);
    if a != [] {
      SomethingMerged(a);
      SomethingMerged(b);
      SelectionForgetsOrder(a, b);
      SameEmptiness(Select(Merged(a)).affected, Select(Merged(b)).affected);
    }
  }

  /** Rules of one kind: the bucket of each rule, and the one rule of each bucket. */
  datatype Rules = Rules(bucket: map<string, BucketKey>, rule: map<BucketKey, string>)
  {
    /** Rules and buckets determine each other. */
    predicate Invertible() {
      forall id :: id in bucket ==> bucket[id] in rule && rule[bucket[id]] == id
    }

    /** The prefix tells the kind. */
    predicate Prefixed(status: bool) {
      forall id :: id in bucket ==> (STATUS_PREFIX <= id) == status
    }
  }

  datatype Table = Table(status: Rules, log: Rules)

  const COMPILE_STATUS := Rules(
    map[
      "status_invalid_option_v1" := ("invalid_option", OptionRelated),
      "status_option_conflict_v1" := ("option_conflict", OptionRelated),
      "status_build_timeout_v1" := ("build_timeout", EnvironmentRelated),
      "status_compiler_crash_v1" := ("compiler_crash", UnknownRoute),
      "status_oom_killed_v1" := ("oom_killed", EnvironmentRelated),
      "status_artifact_missing_v1" := ("artifact_missing", UnknownRoute),
      "status_infra_failure_v1" := ("infra_failure", EnvironmentRelated)],
    map[
      ("invalid_option", OptionRelated) := "status_invalid_option_v1",
      ("option_conflict", OptionRelated) := "status_option_conflict_v1",
      ("build_timeout", EnvironmentRelated) := "status_build_timeout_v1",
      ("compiler_crash", UnknownRoute) := "status_compiler_crash_v1",
      ("oom_killed", EnvironmentRelated) := "status_oom_killed_v1",
      ("artifact_missing", UnknownRoute) := "status_artifact_missing_v1",
      ("infra_failure", EnvironmentRelated) := "status_infra_failure_v1"])

  const COMPILE_LOG := Rules(
    map[
      "gcc_unknown_option_v1" := ("invalid_option", OptionRelated),
      "compiler_option_conflict_v1" := ("option_conflict", OptionRelated),
      "disk_full_or_quota_v1" := ("disk_full_or_quota", EnvironmentRelated),
      "oom_killed_v1" := ("oom_killed", EnvironmentRelated),
      "permission_denied_v1" := ("permission_denied", EnvironmentRelated),
      "network_failure_v1" := ("network_failure", EnvironmentRelated),
      "dependency_missing_v1" := ("dependency_missing", EnvironmentRelated),
      "compiler_crash_v1" := ("compiler_crash", UnknownRoute)],
    map[
      ("invalid_option", OptionRelated) := "gcc_unknown_option_v1",
      ("option_conflict", OptionRelated) := "compiler_option_conflict_v1",
      ("disk_full_or_quota", EnvironmentRelated) := "disk_full_or_quota_v1",
      ("oom_killed", EnvironmentRelated) := "oom_killed_v1",
      ("permission_denied", EnvironmentRelated) := "permission_denied_v1",
      ("network_failure", EnvironmentRelated) := "network_failure_v1",
      ("dependency_missing", EnvironmentRelated) := "dependency_missing_v1",
      ("compiler_crash", UnknownRoute) := "compiler_crash_v1"])

  /** The rules of compilation. */
  const COMPILE_TABLE := Table(COMPILE_STATUS, COMPILE_LOG)

  const BENCHMARK_STATUS := Rules(
    map[
      "status_benchmark_timeout_v1" := ("benchmark_timeout", EnvironmentRelated),
      "status_benchmark_crash_v1" := ("benchmark_crash", UnknownRoute),
      "status_environment_unstable_v1" := ("environment_unstable", EnvironmentRelated),
      "status_artifact_invalid_v1" := ("artifact_invalid", UnknownRoute),
      "status_score_parse_failed_v1" := ("score_parse_failed", UnknownRoute),
      "status_infra_failure_v1" := ("infra_failure", EnvironmentRelated)],
    map[
      ("benchmark_timeout", EnvironmentRelated) := "status_benchmark_timeout_v1",
      ("benchmark_crash", UnknownRoute) := "status_benchmark_crash_v1",
      ("environment_unstable", EnvironmentRelated) := "status_environment_unstable_v1",
      ("artifact_invalid", UnknownRoute) := "status_artifact_invalid_v1",
      ("score_parse_failed", UnknownRoute) := "status_score_parse_failed_v1",
      ("infra_failure", EnvironmentRelated) := "status_infra_failure_v1"])

  const BENCHMARK_LOG := Rules(
    map[
      "disk_full_or_quota_v1" := ("disk_full_or_quota", EnvironmentRelated),
      "permission_denied_v1" := ("permission_denied", EnvironmentRelated),
      "network_failure_v1" := ("network_failure", EnvironmentRelated),
      "benchmark_score_parse_failed_v1" := ("score_parse_failed", UnknownRoute),
      "benchmark_correctness_failed_v1" := ("functional_correctness_failed", UnknownRoute),
      "benchmark_artifact_invalid_v1" := ("artifact_invalid", UnknownRoute),
      "benchmark_environment_unstable_v1" := ("environment_unstable", EnvironmentRelated),
      "benchmark_too_noisy_v1" := ("too_noisy", EnvironmentRelated)],
    map[
      ("disk_full_or_quota", EnvironmentRelated) := "disk_full_or_quota_v1",
      ("permission_denied", EnvironmentRelated) := "permission_denied_v1",
      ("network_failure", EnvironmentRelated) := "network_failure_v1",
      ("score_parse_failed", UnknownRoute) := "benchmark_score_parse_failed_v1",
      ("functional_correctness_failed", UnknownRoute) := "benchmark_correctness_failed_v1",
      ("artifact_invalid", UnknownRoute) := "benchmark_artifact_invalid_v1",
      ("environment_unstable", EnvironmentRelated) := "benchmark_environment_unstable_v1",
      ("too_noisy", EnvironmentRelated) := "benchmark_too_noisy_v1"])

  /** The rules of benchmarking, the compile rules that apply to it among them. */
  const BENCHMARK_TABLE := Table(BENCHMARK_STATUS, BENCHMARK_LOG)

  predicate ByRule(rules: Rules, c: Candidate) {
    c.ruleId in rules.bucket && rules.bucket[c.ruleId] == KeyOf(c)
  }

  /** Every match is by a rule of the table. */
  ghost predicate FromTable(table: Table, candidates: seq<Candidate>) {
    forall c :: c in candidates ==> ByRule(table.status, c) || ByRule(table.log, c)
  }

  lemma TablesAgree(table: Table, candidates: seq<Candidate>)
    requires table.status.Invertible() && table.log.Invertible() && FromTable(table, candidates)
    requires table.status.Prefixed(true) && table.log.Prefixed(false)
    ensures RulesAgree(candidates)
  {
    forall c | c in candidates ensures ByRule(if IsStatus(c) then table.status else table.log, c) {
      assert ByRule(table.status, c) || ByRule(table.log, c);
    }
  }

  lemma StatusIff(id: string)
    ensures STATUS_PREFIX <= id <==>
      && |id| >= 7 && id[0] == 's' && id[1] == 't' && id[2] == 'a' && id[3] == 't' && id[4] == 'u' && id[5] == 's'
      && id[6] == '_'
  {
    if |id| >= 7 {
      assert STATUS_PREFIX <= id <==> id[..7] == STATUS_PREFIX;
      assert forall i :: 0 <= i < 7 ==> id[..7][i] == id[i];
    }
  }

  lemma CompileStatusIsPrefixed()
    ensures COMPILE_STATUS.Prefixed(true)
  {
    forall id | id in COMPILE_STATUS.bucket ensures (STATUS_PREFIX <= id) == true {
      StatusIff(id);
    }
  }

  lemma CompileLogIsPrefixed()
    ensures COMPILE_LOG.Prefixed(false)
  {
    forall id | id in COMPILE_LOG.bucket ensures (STATUS_PREFIX <= id) == false {
      StatusIff(id);
    }
  }

  lemma CompileStatusIsInvertible()
    ensures COMPILE_STATUS.Invertible()
  {}

  lemma CompileLogIsInvertible()
    ensures COMPILE_LOG.Invertible()
  {}

  lemma BenchmarkStatusIsPrefixed()
    ensures BENCHMARK_STATUS.Prefixed(true)
  {
    forall id | id in BENCHMARK_STATUS.bucket ensures (STATUS_PREFIX <= id) == true {
      StatusIff(id);
    }
  }

  lemma BenchmarkLogIsPrefixed()
    ensures BENCHMARK_LOG.Prefixed(false)
  {
    forall id | id in BENCHMARK_LOG.bucket ensures (STATUS_PREFIX <= id) == false {
      StatusIff(id);
    }
  }

  lemma BenchmarkStatusIsInvertible()
    ensures BENCHMARK_STATUS.Invertible()
  {}

  lemma BenchmarkLogIsInvertible()
    ensures BENCHMARK_LOG.Invertible()
  {}

  /** The classification of a failed compilation or benchmark ignores the order and repetition of its matches. */
  lemma ClassificationForgetsLogOrder(a: seq<Candidate>, b: seq<Candidate>, allowWrite: bool)
    requires SameMembers(a, b) && (FromTable(COMPILE_TABLE, a) || FromTable(BENCHMARK_TABLE, a))
    ensures SameVerdict(ClassificationOf(a, allowWrite), ClassificationOf(b, allowWrite))
  {
    hide ClassificationOf, RulesAgree, FromTable;
    if FromTable(COMPILE_TABLE, a) {
      CompileStatusIsPrefixed();
      CompileLogIsPrefixed();
      CompileStatusIsInvertible();
      CompileLogIsInvertible();
      TablesAgree(COMPILE_TABLE, a);
    } else {
      BenchmarkStatusIsPrefixed();
      BenchmarkLogIsPrefixed();
      BenchmarkStatusIsInvertible();
      BenchmarkLogIsInvertible();
      TablesAgree(BENCHMARK_TABLE, a);
    }
    AgreeingRulesForgetOrder(a, b, allowWrite);
  }

  /** Two matches of the example: rules of one bucket that disagree, and a bucket that names no option. */
  function NamesOption(rule: string): Candidate {
    Candidate("x", OptionRelated, false, [Evidence("log", "x", "x")], ["-fx"], rule, High, ["log:x"])
  }

  const NAMES_NONE := Candidate("y", OptionRelated, false, [Evidence("log", "y", "y")], [], "p", High, ["log:y"])

  lemma DistinctTwice<T>(x: T)
    ensures Distinct([x]) == [x] && Distinct([x, x]) == [x]
  {
    assert [x, x][..1] == [x] && [x][..0] == [];
    assert Distinct([x][..0]) == [];
  }

  lemma DoubledGroup(a: Candidate, b: Candidate)
    ensures AllEvidence([a]) == a.evidence && AllEvidence([a, b]) == a.evidence + b.evidence
    ensures AllOptions([a]) == a.affected && AllOptions([a, b]) == a.affected + b.affected
    ensures AllSources([a]) == a.sources && AllSources([a, b]) == a.sources + b.sources
  {
    assert [a, b][..1] == [a] && [a][..0] == [];
    assert AllEvidence([]) == [] && AllOptions([]) == [] && AllSources([]) == [];
    assert [] + a.evidence == a.evidence && [] + a.affected == a.affected && [] + a.sources == a.sources;
  }

  lemma MergedPair(r: string, s: string)
    requires |r| == |s| == 1
    ensures MergedGroup(("x", OptionRelated), [NamesOption(r), NamesOption(s)]) == NamesOption(r)
  {
    var a, b := NamesOption(r), NamesOption(s);
    DoubledGroup(a, b);
    DistinctTwice(a.evidence[0]);
    DistinctTwice(a.affected[0]);
    DistinctTwice(a.sources[0]);
    hide AllEvidence, AllOptions, AllSources, Distinct;
    assert [a, b][0] == a && !(STATUS_PREFIX <= a.ruleId);
    assert [a, b][..1] == [a] && [a][..0] == [];
    assert Highest([]) == Low && Highest([a]) == High && Highest([a, b]) == High;
  }

  lemma MergedOne()
    ensures MergedGroup(("y", OptionRelated), [NAMES_NONE]) == NAMES_NONE
  {
    var c := NAMES_NONE;
    DoubledGroup(c, c);
    DistinctTwice(c.evidence[0]);
    DistinctTwice(c.sources[0]);
    assert Distinct(c.affected) == [];
    hide AllEvidence, AllOptions, AllSources, Distinct;
    assert [c][0] == c && !(STATUS_PREFIX <= c.ruleId);
    assert [c][..0] == [] && Highest([]) == Low && Highest([c]) == High;
  }

  lemma ExampleKeys(a: Candidate, b: Candidate, c: Candidate)
    requires KeyOf(a) == KeyOf(b) != KeyOf(c)
    ensures KeysOf([a, b, c]) == [KeyOf(a), KeyOf(c)]
  {
    assert KeysOf([]) == [];
    hide KeysOf;
    assert [] + [a] == [a] && [a] + [b] == [a, b] && [a, b] + [c] == [a, b, c];
    assert [] + [KeyOf(a)] == [KeyOf(a)] && [KeyOf(a)] + [KeyOf(c)] == [KeyOf(a), KeyOf(c)];
    KeysSnoc([], a);
    KeysSnoc([a], b);
    KeysSnoc([a, b], c);
  }

  lemma ExampleGroup(a: Candidate, b: Candidate, c: Candidate, key: BucketKey)
    requires KeyOf(a) == KeyOf(b) != KeyOf(c) && (key == KeyOf(a) || key == KeyOf(c))
    ensures GroupOf([a, b, c], key) == if key == KeyOf(a) then [a, b] else [c]
  {
    assert GroupOf([], key) == [];
    hide GroupOf;
    assert [] + [a] == [a] && [a] + [b] == [a, b] && [a, b] + [c] == [a, b, c];
    GroupSnoc([], a, key);
    GroupSnoc([a], b, key);
    GroupSnoc([a, b], c, key);
  }

  lemma MergedExample(r: string, s: string)
    requires |r| == |s| == 1
    ensures Merged([NamesOption(r), NamesOption(s), NAMES_NONE]) == [NamesOption(r), NAMES_NONE]
  {
    hide KeysOf, GroupOf, MergedGroup;
    var a, b, c := NamesOption(r), NamesOption(s), NAMES_NONE;
    ExampleKeys(a, b, c);
    ExampleGroup(a, b, c, KeyOf(a));
    ExampleGroup(a, b, c, KeyOf(c));
    MergedPair(r, s);
    MergedOne();
  }

  lemma NoHighEnvironment(merged: seq<Candidate>)
    requires forall m :: m in merged ==> !IsHighEnvironment(m)
    ensures HighEnvironment(merged) == []
  {
    HighEnvironmentMembers(merged);
  }

  lemma SelectExample(r: string)
    requires r == "m" || r == "z"
    ensures Select([NamesOption(r), NAMES_NONE]) == if r == "z" then NamesOption(r) else NAMES_NONE
  {
    var a, c := NamesOption(r), NAMES_NONE;
    var both := [a, c];
    NoHighEnvironment(both);
    assert both[..1] == [a];
    KeysCompare(r);
    hide SelectionKey, LexLeq, HighEnvironment;
    assert FirstGreatest([a]) == 0;
  }

  lemma SameHead(x: int, a: seq<int>, b: seq<int>)
    ensures LexLeq([x] + a, [x] + b) == LexLeq(a, b)
  {
    assert ([x] + a)[1..] == a && ([x] + b)[1..] == b;
  }

  lemma KeysCompare(r: string)
    requires r == "m" || r == "z"
    ensures LexLeq(SelectionKey(NAMES_NONE), SelectionKey(NamesOption(r))) <==> r == "z"
  {
    var x, y := CandidateIdentity.Codes(r), CandidateIdentity.Codes("p");
    assert x == [r[0] as int] && y == ['p' as int];
    assert x[1..] == [] && y[1..] == [];
    assert LexLeq(y, x) <==> r == "z";
    hide LexLeq;
    SameHead(1, y, x);
    SameHead(1, [1] + y, [1] + x);
    SameHead(3, [1] + ([1] + y), [1] + ([1] + x));
    SameHead(3, [3] + ([1] + ([1] + y)), [3] + ([1] + ([1] + x)));
    assert SelectionKey(NamesOption(r)) == [3] + ([3] + ([1] + ([1] + x)));
    assert SelectionKey(NAMES_NONE) == [3] + ([3] + ([1] + ([1] + y)));
  }

  /**
   Agreement is needed: when two rules of one bucket disagree, the order of the same three matches decides
   the category and whether the combination is written down as failed.
   */
  lemma DisagreeingRulesDependOnOrder()
    ensures
      var a := [NamesOption("m"), NamesOption("z"), NAMES_NONE];
      var b := [NamesOption("z"), NamesOption("m"), NAMES_NONE];
      && SameMembers(a, b)
      && ClassificationOf(a, true).category == "y" && !ClassificationOf(a, true).writeFailedCombos
      && ClassificationOf(b, true).category == "x" && ClassificationOf(b, true).writeFailedCombos
  {
    hide Merged, Select;
    MergedExample("m", "z");
    MergedExample("z", "m");
    SelectExample("m");
    SelectExample("z");
  }
}
