/**
 What a classification reports, from the matches alone: everything its bucket's members say and
 nothing else, chosen by five criteria in turn.
 */
module ClassifierReport {
  import opened Wrappers
  import opened Sorting
  import opened FailureClassifier
  import opened ClassifierOrder
  import CandidateIdentity

  ghost predicate InBucket(candidates: seq<Candidate>, key: BucketKey, c: Candidate) {
    c in candidates && KeyOf(c) == key
  }

  ghost predicate NoRepeats<T(!new)>(s: seq<T>) {
    forall i, j :: 0 <= i < j < |s| ==> s[i] != s[j]
  }

  /** The members' evidence, options and sources, each once; their flags joined; a rule of one of them. */
  ghost predicate IsUnion(candidates: seq<Candidate>, m: Candidate) {
    var key := KeyOf(m);
    && (m.retryable <==> (exists c :: InBucket(candidates, key, c) && c.retryable))
    && (forall e :: e in m.evidence <==> (exists c :: InBucket(candidates, key, c) && e in c.evidence)) && NoRepeats(m.evidence)
    && (forall o :: o in m.affected <==> (exists c :: InBucket(candidates, key, c) && o in c.affected)) && NoRepeats(m.affected)
    && (forall x :: x in m.sources <==> (exists c :: InBucket(candidates, key, c) && x in c.sources)) && NoRepeats(m.sources)
    && m.confidence == BucketConfidence(candidates, key)
    && (exists c :: InBucket(candidates, key, c) && c.ruleId == m.ruleId)
    && (IsStatus(m) ==> forall c :: InBucket(candidates, key, c) ==> IsStatus(c))
  }

  lemma GroupIsBucket(candidates: seq<Candidate>, key: BucketKey)
    ensures forall c :: InBucket(candidates, key, c) <==> c in GroupOf(candidates, key)
  {
    GroupMembers(candidates, key);
  }

  lemma RetryableIsUnion(candidates: seq<Candidate>, key: BucketKey)
    ensures var group := GroupOf(candidates, key);
      (exists i :: 0 <= i < |group| && group[i].retryable) <==> (exists c :: InBucket(candidates, key, c) && c.retryable)
  {
    var group := GroupOf(candidates, key);
    GroupIsBucket(candidates, key);
    if i :| 0 <= i < |group| && group[i].retryable {
      assert group[i] in group;
    }
  }

  lemma EvidenceIsUnion(candidates: seq<Candidate>, key: BucketKey, e: Evidence)
    ensures e in Distinct(AllEvidence(GroupOf(candidates, key))) <==> (exists c :: InBucket(candidates, key, c) && e in c.evidence)
  {
    var group := GroupOf(candidates, key);
    GroupIsBucket(candidates, key);
    EvidenceOfGroup(group);
    hide GroupOf, InBucket;
    if i :| 0 <= i < |group| && e in group[i].evidence {
      assert group[i] in group;
    }
    DistinctMembers(AllEvidence(group));
  }

  lemma OptionsAreUnion(candidates: seq<Candidate>, key: BucketKey, o: string)
    ensures o in Distinct(AllOptions(GroupOf(candidates, key))) <==> (exists c :: InBucket(candidates, key, c) && o in c.affected)
  {
    var group := GroupOf(candidates, key);
    GroupIsBucket(candidates, key);
    OptionsOfGroup(group);
    hide GroupOf, InBucket;
    if i :| 0 <= i < |group| && o in group[i].affected {
      assert group[i] in group;
    }
    DistinctMembers(AllOptions(group));
  }

  lemma SourcesAreUnion(candidates: seq<Candidate>, key: BucketKey, x: string)
    ensures x in Distinct(AllSources(GroupOf(candidates, key))) <==> (exists c :: InBucket(candidates, key, c) && x in c.sources)
  {
    var group := GroupOf(candidates, key);
    GroupIsBucket(candidates, key);
    SourcesOfGroup(group);
    hide GroupOf, InBucket;
    if i :| 0 <= i < |group| && x in group[i].sources {
      assert group[i] in group;
    }
    DistinctMembers(AllSources(group));
  }

  lemma RuleIsAMembers(candidates: seq<Candidate>, key: BucketKey)
    requires GroupOf(candidates, key) != []
    ensures var rule := PreferredRule(GroupOf(candidates, key));
      && (exists c :: InBucket(candidates, key, c) && c.ruleId == rule)
      && (STATUS_PREFIX <= rule ==> forall c :: InBucket(candidates, key, c) ==> IsStatus(c))
  {
    var group := GroupOf(candidates, key);
    PreferredIsAMember(group);
    GroupIsBucket(candidates, key);
    hide GroupOf, PreferredRule;
  }

  /** Every merged candidate is the union of its bucket. */
  lemma MergedIsUnion(candidates: seq<Candidate>, m: Candidate)
    requires m in Merged(candidates)
    ensures IsUnion(candidates, m)
  {
    MergedMembers(candidates);
    hide Merged, GroupOf, Distinct, AllEvidence, AllOptions, AllSources, PreferredRule, MergedConfidence, InBucket,
      BucketConfidence;
    var key, group := KeyOf(m), GroupOf(candidates, KeyOf(m));
    RetryableIsUnion(candidates, key);
    forall e ensures e in m.evidence <==> (exists c :: InBucket(candidates, key, c) && e in c.evidence) {
      EvidenceIsUnion(candidates, key, e);
    }
    forall o ensures o in m.affected <==> (exists c :: InBucket(candidates, key, c) && o in c.affected) {
      OptionsAreUnion(candidates, key, o);
    }
    forall x ensures x in m.sources <==> (exists c :: InBucket(candidates, key, c) && x in c.sources) {
      SourcesAreUnion(candidates, key, x);
    }
    DistinctMembers(AllEvidence(group));
    DistinctMembers(AllOptions(group));
    DistinctMembers(AllSources(group));
    MergedConfidenceIff(candidates, key);
    RuleIsAMembers(candidates, key);
  }

  predicate IsGeneric(category: string) {
    category == "infra_failure" || category == "unknown_failure"
  }

  /** Between equally sure buckets of one route: the specific category, then more evidence, then the later rule name. */
  ghost predicate NoLessTelling(s: Candidate, m: Candidate) {
    if IsGeneric(s.category) != IsGeneric(m.category) then IsGeneric(m.category)
    else if |s.evidence| != |m.evidence| then |s.evidence| > |m.evidence|
    else LexLeq(CandidateIdentity.Codes(m.ruleId), CandidateIdentity.Codes(s.ruleId))
  }

  lemma KeyTells(m: Candidate, s: Candidate)
    requires LexLeq(SelectionKey(m), SelectionKey(s)) && m.confidence == s.confidence && m.route == s.route
    ensures NoLessTelling(s, m)
  {
    var a, b := SelectionKey(m), SelectionKey(s);
    assert a[0] == b[0] && a[1] == b[1];
    assert a[2] == (if IsGeneric(m.category) then 0 else 1) && b[2] == (if IsGeneric(s.category) then 0 else 1);
    assert a[3] == |m.evidence| && b[3] == |s.evidence|;
    assert a[4..] == CandidateIdentity.Codes(m.ruleId) && b[4..] == CandidateIdentity.Codes(s.ruleId);
    hide SelectionKey, IsGeneric;
    FromAfter(a, b, 0);
    FromAfter(a, b, 1);
    FromAfter(a, b, 2);
    if a[2] == b[2] {
      FromAfter(a, b, 3);
    }
  }

  /** Tuples in order whose next components agree are in order behind them. */
  lemma FromAfter(a: seq<int>, b: seq<int>, k: nat)
    requires k < |a| && k < |b| && (if k == 0 then LexLeq(a, b) else LexLeq(a[k..], b[k..]))
    ensures a[k] <= b[k] && (a[k] == b[k] ==> LexLeq(a[k + 1..], b[k + 1..]))
  {
    assert a[0..] == a && b[0..] == b;
    assert a[k..][1..] == a[k + 1..] && b[k..][1..] == b[k + 1..];
  }

  /** The fields of a report, from its merged candidate. */
  ghost predicate Reports(r: Classification, m: Candidate, allowWrite: bool) {
    && r.category == m.category && r.route == m.route && r.confidence == m.confidence
    && r.evidence == m.evidence && r.affected == m.affected && r.retryable == m.retryable && r.ruleId == Some(m.ruleId)
    && (r.writeFailedCombos <==> allowWrite && m.route == OptionRelated && m.confidence == High && m.affected != [])
  }

  /** Without any match nothing is known, and nothing is retried or written down. */
  lemma NoMatchIsUnknown(allowWrite: bool)
    ensures var r := ClassificationOf([], allowWrite);
      && r.category == "unknown_failure" && r.route == UnknownRoute && r.confidence == Low && r.ruleId == None
      && r.evidence == [] && r.affected == [] && !r.retryable && !r.writeFailedCombos
  {}

  /** A report is one of the buckets, and no other that is as sure and of its route tells more. */
  lemma ReportTellsMost(candidates: seq<Candidate>, allowWrite: bool) returns (m: Candidate)
    requires candidates != []
    ensures Reports(ClassificationOf(candidates, allowWrite), m, allowWrite)
    ensures m in Merged(candidates) && IsUnion(candidates, m)
    ensures forall n :: n in Merged(candidates) && n.confidence == m.confidence && n.route == m.route ==> NoLessTelling(m, n)
  {
    SomethingMerged(candidates);
    m := Select(Merged(candidates));
    hide Select, SelectionKey, LexLeq, Merged, NoLessTelling, IsUnion;
    SelectedIsGreatest(Merged(candidates));
    MergedIsUnion(candidates, m);
    forall n | n in Merged(candidates) && n.confidence == m.confidence && n.route == m.route ensures NoLessTelling(m, n) {
      assert InPool(Merged(candidates), n);
      KeyTells(n, m);
    }
  }
}
