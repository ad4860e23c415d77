/**
 The Benjamini-Hochberg screen over one family of comparisons.  The sorted step-up loop is proved
 to select the largest self-consistent set of improvements, which fixes the selection completely;
 monotonicity in `q` and independence of the family's order follow from that alone.
 */
module FamilyScreen {
  import opened Wrappers
  import opened FiniteSets
  import opened Sorting
  import opened StatsTypes

  /** What the screen reads of a result: the p-value of an improvement, nothing otherwise. */
  function ImprovementPValue(r: StatisticalResult): Option<real> {
    if r.verdict == SignificantImprovement then r.pValue else None
  }

  function Family(results: seq<StatisticalResult>): (f: seq<Option<real>>)
    ensures |f| == |results|
    ensures forall i :: 0 <= i < |f| ==> f[i] == ImprovementPValue(results[i])
  {
    seq(|results|, i requires 0 <= i < |results| => ImprovementPValue(results[i]))
  }

  ghost function Improvements(f: seq<Option<real>>): set<nat> {
    set i: nat | i < |f| && f[i].Some?
  }

  ghost function Selected(selected: seq<bool>): set<nat> {
    set i: nat | i < |selected| && selected[i]
  }

  /** Improvements only, each with a p-value of at most `q * |t| / m` in a family of `m` results. */
  ghost predicate SelfConsistent(f: seq<Option<real>>, q: real, t: set<nat>) {
    && t <= Improvements(f)
    && forall i :: i in t ==> f[i].value * |f| as real <= q * |t| as real
  }

  ghost predicate IsLargestSelfConsistent(f: seq<Option<real>>, q: real, selected: seq<bool>) {
    && |selected| == |f|
    && SelfConsistent(f, q, Selected(selected))
    && forall t :: SelfConsistent(f, q, t) ==> t <= Selected(selected)
  }

  /** Significant improvements only, each with a p-value of at most `q * |t| / m` in a family of `m` results. */
  ghost predicate ImprovedWithin(results: seq<StatisticalResult>, q: real, t: set<nat>) {
    forall i :: i in t ==>
      && i < |results| && results[i].verdict == SignificantImprovement && results[i].pValue.Some?
      && results[i].pValue.value * |results| as real <= q * |t| as real
  }

  /** The selection meets that bound, and so does no set with anything else in it. */
  ghost predicate IsScreened(results: seq<StatisticalResult>, q: real, selected: seq<bool>) {
    && |selected| == |results| && ImprovedWithin(results, q, Selected(selected))
    && forall t :: ImprovedWithin(results, q, t) ==> t <= Selected(selected)
  }

  lemma ImprovedWithinIff(results: seq<StatisticalResult>, q: real, t: set<nat>)
    ensures SelfConsistent(Family(results), q, t) <==> ImprovedWithin(results, q, t)
  {
    var f := Family(results);
    if SelfConsistent(f, q, t) {
      forall i | i in t
        ensures i < |results| && results[i].verdict == SignificantImprovement && results[i].pValue.Some?
        ensures results[i].pValue.value * |results| as real <= q * |t| as real
      {
        MemberBound(f, q, t, i);
      }
    }
  }

  lemma ScreenedIff(results: seq<StatisticalResult>, q: real, selected: seq<bool>)
    ensures IsScreened(results, q, selected) <==> IsLargestSelfConsistent(Family(results), q, selected)
  {
    hide SelfConsistent, ImprovedWithin;
    ImprovedWithinIff(results, q, Selected(selected));
    forall t ensures SelfConsistent(Family(results), q, t) <==> ImprovedWithin(results, q, t) {
      ImprovedWithinIff(results, q, t);
    }
  }

  datatype Entry = Entry(pValue: real, index: nat)

  predicate EntryLeq(a: Entry, b: Entry) {
    a.pValue < b.pValue || (a.pValue == b.pValue && a.index <= b.index)
  }

  function Entries(f: seq<Option<real>>, n: nat): seq<Entry>
    requires n <= |f|
  {
    if n == 0 then []
    else if f[n - 1].Some? then Entries(f, n - 1) + [Entry(f[n - 1].value, n - 1)]
    else Entries(f, n - 1)
  }

  lemma {:induction false} EntriesAreTheImprovements(f: seq<Option<real>>, n: nat)
    requires n <= |f|
    ensures forall e :: e in Entries(f, n) <==> e.index < n && f[e.index] == Some(e.pValue)
    ensures forall j, k :: 0 <= j < k < |Entries(f, n)| ==> Entries(f, n)[j].index < Entries(f, n)[k].index
  {
    if n > 0 {
      EntriesAreTheImprovements(f, n - 1);
      var front := Entries(f, n - 1);
      forall k | 0 <= k < |front| ensures front[k].index < n - 1 {
        assert front[k] in front;
      }
    }
  }

  ghost function IndicesOf(s: seq<Entry>, k: nat): set<nat>
    requires k <= |s|
  {
    set j | 0 <= j < k :: s[j].index
  }

  ghost predicate Ascending(s: seq<Entry>) {
    forall j, k :: 0 <= j < k < |s| ==> s[j].pValue <= s[k].pValue
  }

  ghost predicate Distinct(s: seq<Entry>) {
    forall j, k :: 0 <= j < k < |s| ==> s[j].index != s[k].index
  }

  ghost predicate Matches(f: seq<Option<real>>, s: seq<Entry>) {
    forall k :: 0 <= k < |s| ==> s[k].index < |f| && f[s[k].index] == Some(s[k].pValue)
  }

  /** The improvements of the family, each once, in increasing order of p-value. */
  ghost predicate IsRanking(f: seq<Option<real>>, s: seq<Entry>) {
    Ascending(s) && Distinct(s) && Matches(f, s) && Improvements(f) <= IndicesOf(s, |s|)
  }

  /** Elements that occur once before sorting sit at one place after it. */
  lemma SortKeepsDistinct(s: seq<Entry>)
    requires forall j, k :: 0 <= j < k < |s| ==> s[j].index < s[k].index
    ensures Distinct(Sort(s, EntryLeq))
  {
    var r := Sort(s, EntryLeq);
    SortPermutes(s, EntryLeq);
    SortMembers(s, EntryLeq);
    hide Sort;
    forall j, k | 0 <= j < k < |r| ensures r[j].index != r[k].index {
      assert r[j] in s && r[k] in s;
      var e := r[k];
      if r[j] == e {
        TwicePresent(r, j, k);
        OnceEach(s, e);
        assert false;
      }
    }
  }

  lemma TwicePresent<T>(r: seq<T>, j: nat, k: nat)
    requires j < k < |r| && r[j] == r[k]
    ensures multiset(r)[r[k]] >= 2
  {
    assert r == r[..k] + r[k..] && r[j] in r[..k] && r[k] in r[k..];
  }

  lemma {:induction false} OnceEach(s: seq<Entry>, e: Entry)
    requires forall j, k :: 0 <= j < k < |s| ==> s[j].index < s[k].index
    ensures multiset(s)[e] <= 1
  {
    if s != [] {
      var front := s[..|s| - 1];
      assert s == front + [s[|s| - 1]];
      OnceEach(front, e);
    }
  }

  lemma SortedEntriesRank(f: seq<Option<real>>)
    ensures IsRanking(f, Sort(Entries(f, |f|), EntryLeq))
  {
    var entries := Entries(f, |f|);
    var s := Sort(entries, EntryLeq);
    EntriesAreTheImprovements(f, |f|);
    SortMembers(entries, EntryLeq);
    SortKeepsDistinct(entries);
    SortSorts(entries, EntryLeq);
    forall j, k | 0 <= j < k < |s| ensures s[j].pValue <= s[k].pValue {
      assert EntryLeq(s[j], s[k]);
    }
    forall k | 0 <= k < |s| ensures s[k].index < |f| && f[s[k].index] == Some(s[k].pValue) {
      assert s[k] in entries;
    }
    forall i | i in Improvements(f) ensures i in IndicesOf(s, |s|) {
      assert Entry(f[i].value, i) in s;
    }
  }

  /** Rank `k` (1-based) passes its step-up threshold. */
  predicate Passes(s: seq<Entry>, q: real, m: nat, k: nat)
    requires 1 <= k <= |s| && m > 0
  {
    s[k - 1].pValue <= q * k as real / m as real
  }

  lemma PassesMeans(s: seq<Entry>, q: real, m: nat, k: nat)
    requires 1 <= k <= |s| && m > 0
    ensures Passes(s, q, m, k) <==> s[k - 1].pValue * m as real <= q * k as real
  {
    var x := q * k as real / m as real;
    assert x * m as real == q * k as real;
  }

  /** `q` times a larger count is larger. */
  lemma ScaleCount(q: real, a: nat, b: nat)
    requires q >= 0.0 && a <= b
    ensures q * a as real <= q * b as real
  {
    assert q * (b - a) as real >= 0.0;
  }

  lemma {:induction false} IndicesCount(s: seq<Entry>, k: nat)
    requires Distinct(s) && k <= |s|
    ensures |IndicesOf(s, k)| == k
  {
    if k > 0 {
      IndicesCount(s, k - 1);
      IndicesSnoc(s, k - 1);
      hide IndicesOf, Distinct;
    } else {
      assert IndicesOf(s, 0) == {};
    }
  }

  lemma IndicesSnoc(s: seq<Entry>, k: nat)
    requires Distinct(s) && k < |s|
    ensures IndicesOf(s, k + 1) == IndicesOf(s, k) + {s[k].index} && s[k].index !in IndicesOf(s, k)
  {
    forall i | i in IndicesOf(s, k) ensures i in IndicesOf(s, k + 1) && i != s[k].index {
      var j :| 0 <= j < k && s[j].index == i;
    }
  }

  lemma IndicesGrow(s: seq<Entry>, k: nat, k': nat)
    requires k <= k' <= |s|
    ensures IndicesOf(s, k) <= IndicesOf(s, k')
  {}

  /** Rank of the member of `t` ranked last. */
  lemma LastRanked(s: seq<Entry>, t: set<nat>) returns (k: nat)
    requires t != {} && t <= IndicesOf(s, |s|)
    ensures 1 <= k <= |s| && s[k - 1].index in t && t <= IndicesOf(s, k)
  {
    k := |s|;
    while k > 0 && s[k - 1].index !in t
      invariant k <= |s|
      invariant t <= IndicesOf(s, k)
    {
      assert IndicesOf(s, k) == IndicesOf(s, k - 1) + {s[k - 1].index};
      k := k - 1;
    }
    assert k > 0;
  }

  lemma AtMostRank(s: seq<Entry>, t: set<nat>, k: nat)
    requires Distinct(s) && k <= |s| && t <= IndicesOf(s, k)
    ensures |t| <= k
  {
    IndicesCount(s, k);
    SubsetSize(t, IndicesOf(s, k));
  }

  lemma RankedImprovements(f: seq<Option<real>>, s: seq<Entry>, q: real, t: set<nat>)
    requires IsRanking(f, s) && SelfConsistent(f, q, t)
    ensures t <= IndicesOf(s, |s|)
  {}

  /** A self-consistent set lies inside the first `last` ranks once no later rank passes. */
  lemma StepUpIsMaximal(f: seq<Option<real>>, s: seq<Entry>, q: real, t: set<nat>, last: nat)
    requires IsRanking(f, s) && |f| > 0 && q >= 0.0 && last <= |s|
    requires forall k :: last < k <= |s| ==> !Passes(s, q, |f|, k)
    requires SelfConsistent(f, q, t)
    ensures t <= IndicesOf(s, last)
  {
    if t != {} {
      hide Passes, IndicesOf;
      RankedImprovements(f, s, q, t);
      var k := LastRanked(s, t);
      AtMostRank(s, t, k);
      MemberBound(f, q, t, s[k - 1].index);
      hide SelfConsistent, IsRanking;
      SmallEnoughPasses(s, q, |f|, k, |t|);
      assert k <= last;
      IndicesGrow(s, k, last);
    }
  }

  lemma MemberBound(f: seq<Option<real>>, q: real, t: set<nat>, i: nat)
    requires SelfConsistent(f, q, t) && i in t
    ensures i < |f| && f[i].Some? && f[i].value * |f| as real <= q * |t| as real
  {
    assert i in Improvements(f);
  }

  lemma SmallEnoughPasses(s: seq<Entry>, q: real, m: nat, k: nat, count: nat)
    requires 1 <= k <= |s| && m > 0 && q >= 0.0 && count <= k
    requires s[k - 1].pValue * m as real <= q * count as real
    ensures Passes(s, q, m, k)
  {
    ScaleCount(q, count, k);
    PassesMeans(s, q, m, k);
  }

  /** The first `last` ranks, with any ties of the last one, are self-consistent. */
  lemma StepUpIsSelfConsistent(f: seq<Option<real>>, s: seq<Entry>, q: real, t: set<nat>, last: nat)
    requires Distinct(s) && Matches(f, s) && |f| > 0 && q >= 0.0
    requires 1 <= last <= |s| && Passes(s, q, |f|, last)
    requires IndicesOf(s, last) <= t <= IndicesOf(s, |s|)
    requires forall j :: 0 <= j < |s| && s[j].index in t ==> s[j].pValue <= s[last - 1].pValue
    ensures SelfConsistent(f, q, t)
  {
    IndicesCount(s, last);
    SubsetSize(IndicesOf(s, last), t);
    ScaleCount(q, last, |t|);
    PassesMeans(s, q, |f|, last);
    forall i | i in t ensures i in Improvements(f) && f[i].value <= s[last - 1].pValue {
      var j :| 0 <= j < |s| && s[j].index == i;
    }
    hide Passes, Distinct, Matches, IndicesOf;
    BoundedIsSelfConsistent(f, q, t, s[last - 1].pValue);
  }

  lemma BoundedIsSelfConsistent(f: seq<Option<real>>, q: real, t: set<nat>, bound: real)
    requires t <= Improvements(f) && forall i :: i in t ==> f[i].value <= bound
    requires bound * |f| as real <= q * |t| as real
    ensures SelfConsistent(f, q, t)
  {
    forall i | i in t ensures f[i].value * |f| as real <= q * |t| as real {
      Scale(f[i].value, bound, |f| as real);
    }
  }

  lemma Scale(a: real, b: real, m: real)
    requires a <= b && m >= 0.0
    ensures a * m <= b * m
  {}

  /** The p-value at the last passing rank. */
  method StepUpCutoff(s: seq<Entry>, q: real, m: nat) returns (cutoff: Option<real>, ghost last: nat)
    requires m > 0
    ensures last <= |s| && cutoff == if last == 0 then None else Some(s[last - 1].pValue)
    ensures last > 0 ==> Passes(s, q, m, last)
    ensures forall k :: last < k <= |s| ==> !Passes(s, q, m, k)
  {
    cutoff, last := None, 0;
    for rank := 1 to |s| + 1
      invariant last < rank
      invariant cutoff == if last == 0 then None else Some(s[last - 1].pValue)
      invariant last > 0 ==> Passes(s, q, m, last)
      invariant forall k :: last < k < rank ==> !Passes(s, q, m, k)
    {
      if Passes(s, q, m, rank) {
        cutoff := Some(s[rank - 1].pValue);
        last := rank;
      }
    }
  }

  /** Mark every entry whose p-value does not exceed the cutoff. */
  method SelectUpTo(s: seq<Entry>, m: nat, cutoff: real) returns (selected: seq<bool>)
    requires forall k :: 0 <= k < |s| ==> s[k].index < m
    ensures |selected| == m && Selected(selected) == UpToCutoff(s, |s|, cutoff)
  {
    selected := seq(m, _ => false);
    for k := 0 to |s|
      invariant |selected| == m
      invariant Selected(selected) == UpToCutoff(s, k, cutoff)
    {
      ghost var before := selected;
      if s[k].pValue <= cutoff {
        selected := selected[s[k].index := true];
        assert Selected(selected) == Selected(before) + {s[k].index};
      }
      assert UpToCutoff(s, k + 1, cutoff) ==
        UpToCutoff(s, k, cutoff) + if s[k].pValue <= cutoff then {s[k].index} else {};
    }
  }

  /** `family_screen`: keep every improvement up to the last passing rank, ties included. */
  method FamilyScreen(results: seq<StatisticalResult>, methodName: string, q: real)
    returns (r: Result<seq<bool>, StatsError>)
    ensures methodName != "fdr_bh" ==> r == Err(UnsupportedScreenMethod)
    ensures methodName == "fdr_bh" && !(0.0 < q <= 1.0) ==> r == Err(BadFalseDiscoveryRate)
    ensures methodName == "fdr_bh" && 0.0 < q <= 1.0 ==>
      r.Ok? && IsScreened(results, q, r.value)
  {
    if methodName != "fdr_bh" {
      return Err(UnsupportedScreenMethod);
    }
    if q <= 0.0 || q > 1.0 {
      return Err(BadFalseDiscoveryRate);
    }
    hide Sort, Entries, Passes, SelfConsistent, Ascending, Distinct;
    var f := Family(results);
    var m := |results|;
    var selected := seq(m, _ => false);
    assert Selected(selected) == {};
    hide IsScreened;
    ScreenedIff(results, q, selected);
    if m == 0 {
      return Ok(selected);
    }
    var s := Sort(Entries(f, m), EntryLeq);
    SortedEntriesRank(f);

    var cutoff, last := StepUpCutoff(s, q, m);
    if cutoff == None {
      forall t | SelfConsistent(f, q, t) ensures t <= Selected(selected) {
        StepUpIsMaximal(f, s, q, t, 0);
      }
      return Ok(selected);
    }
    selected := SelectUpTo(s, m, cutoff.value);
    CutoffKeepsTheStepUpSet(f, s, q, selected, last);
    ScreenedIff(results, q, selected);
    return Ok(selected);
  }

  ghost function UpToCutoff(s: seq<Entry>, k: nat, cutoff: real): set<nat>
    requires k <= |s|
  {
    set j | 0 <= j < k && s[j].pValue <= cutoff :: s[j].index
  }

  lemma CutoffKeepsTheStepUpSet(f: seq<Option<real>>, s: seq<Entry>, q: real, selected: seq<bool>, last: nat)
    requires IsRanking(f, s) && |f| > 0 && q >= 0.0 && |selected| == |f|
    requires 1 <= last <= |s| && Passes(s, q, |f|, last)
    requires forall k :: last < k <= |s| ==> !Passes(s, q, |f|, k)
    requires Selected(selected) == UpToCutoff(s, |s|, s[last - 1].pValue)
    ensures IsLargestSelfConsistent(f, q, selected)
  {
    var t := Selected(selected);
    forall j | 0 <= j < |s| && s[j].index in t ensures s[j].pValue <= s[last - 1].pValue {
      var j' :| 0 <= j' < |s| && s[j'].pValue <= s[last - 1].pValue && s[j'].index == s[j].index;
      assert j == j';
    }
    forall i | i in IndicesOf(s, last) ensures i in t {
      var j :| 0 <= j < last && s[j].index == i;
      assert j == last - 1 || s[j].pValue <= s[last - 1].pValue;
    }
    StepUpIsSelfConsistent(f, s, q, t, last);
    forall u | SelfConsistent(f, q, u) ensures u <= t {
      StepUpIsMaximal(f, s, q, u, last);
    }
  }

  /** The specification fixes the selection. */
  lemma SelectionIsUnique(f: seq<Option<real>>, q: real, a: seq<bool>, b: seq<bool>)
    requires IsLargestSelfConsistent(f, q, a) && IsLargestSelfConsistent(f, q, b)
    ensures a == b
  {
    assert Selected(a) == Selected(b);
    forall i | 0 <= i < |a| ensures a[i] == b[i] {
      assert a[i] <==> i in Selected(a);
      assert b[i] <==> i in Selected(b);
    }
  }

  /** Allowing more false discoveries never drops a selected result. */
  lemma SelectionGrowsWithQ(f: seq<Option<real>>, q: real, q': real, a: seq<bool>, b: seq<bool>)
    requires q <= q'
    requires IsLargestSelfConsistent(f, q, a) && IsLargestSelfConsistent(f, q', b)
    ensures forall i :: 0 <= i < |f| && a[i] ==> b[i]
  {
    var t := Selected(a);
    Scale(q, q', |t| as real);
    assert SelfConsistent(f, q', t);
    forall i | 0 <= i < |f| && a[i] ensures b[i] {
      assert i in t && i in Selected(b);
    }
  }

  /** `f[i]` moved to position `at[i]` of `g`. */
  ghost predicate IsRearrangement(f: seq<Option<real>>, g: seq<Option<real>>, at: seq<nat>) {
    && |f| == |g| == |at|
    && (forall i :: 0 <= i < |at| ==> at[i] < |g| && g[at[i]] == f[i])
    && (forall i, j :: 0 <= i < j < |at| ==> at[i] != at[j])
  }

  ghost function Moved(at: seq<nat>, t: set<nat>): set<nat>
    requires forall i :: i in t ==> i < |at|
  {
    set i | i in t :: at[i]
  }

  lemma {:induction false} MovedCount(at: seq<nat>, t: set<nat>)
    requires forall i :: i in t ==> i < |at|
    requires forall i, j :: 0 <= i < j < |at| ==> at[i] != at[j]
    ensures |Moved(at, t)| == |t|
  {
    if t != {} {
      var i :| i in t;
      MovedCount(at, t - {i});
      assert Moved(at, t) == Moved(at, t - {i}) + {at[i]};
      assert at[i] !in Moved(at, t - {i});
    }
  }

  lemma ConsistentAfterMove(f: seq<Option<real>>, g: seq<Option<real>>, at: seq<nat>, q: real, t: set<nat>)
    requires IsRearrangement(f, g, at) && SelfConsistent(f, q, t)
    ensures SelfConsistent(g, q, Moved(at, t))
  {
    forall i | i in t ensures i < |at| {
      MemberBound(f, q, t, i);
    }
    MovedCount(at, t);
    forall k | k in Moved(at, t)
      ensures k in Improvements(g) && g[k].value * |g| as real <= q * |Moved(at, t)| as real
    {
      var i :| i in t && at[i] == k;
      hide SelfConsistent;
      MemberBound(f, q, t, i);
      assert g[k] == f[i];
    }
  }

  /** Rearranging the family rearranges the selection in the same way: no result gains from its place. */
  lemma SelectionCommutesWithRearrangement(
      f: seq<Option<real>>, g: seq<Option<real>>, at: seq<nat>, back: seq<nat>,
      q: real, a: seq<bool>, b: seq<bool>)
    requires IsRearrangement(f, g, at) && IsRearrangement(g, f, back)
    requires forall i :: 0 <= i < |at| ==> back[at[i]] == i
    requires IsLargestSelfConsistent(f, q, a) && IsLargestSelfConsistent(g, q, b)
    ensures forall i :: 0 <= i < |f| ==> b[at[i]] == a[i]
  {
    ConsistentAfterMove(f, g, at, q, Selected(a));
    ConsistentAfterMove(g, f, back, q, Selected(b));
    forall i | 0 <= i < |f| ensures b[at[i]] == a[i] {
      if a[i] {
        assert i in Selected(a);
        assert at[i] in Moved(at, Selected(a));
        assert at[i] in Selected(b);
      }
      if b[at[i]] {
        assert at[i] in Selected(b);
        assert back[at[i]] in Moved(back, Selected(b));
        assert i in Selected(a);
      }
    }
  }
}
