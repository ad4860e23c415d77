/** What the candidate stream holds, nothing more and nothing less. */
module SearchStream {
  import opened Sorting
  import opened SearchCandidates
  import CandidateIdentity

  /** The score that counts for a combination is its latest success. */
  lemma {:induction false} ScoreForIff(good: seq<Trial>, combo: Combo)
    ensures match ScoreFor(good, combo)
      case None => forall t :: t in good && t.combo == combo ==> !t.result.Success?
      case Some(score) =>
        exists i :: 0 <= i < |good| && good[i] == Trial(combo, Success(score))
          && forall j :: i < j < |good| && good[j].combo == combo ==> !good[j].result.Success?
  {
    if good != [] {
      var n := |good| - 1;
      var front, last := good[..n], good[n];
      ScoreForIff(front, combo);
      assert good == front + [last];
      if last.combo == combo && last.result.Success? {
        assert good[n] == Trial(combo, Success(last.result.score));
      } else if ScoreFor(front, combo).Some? {
        var score := ScoreFor(front, combo).value;
        var i :|
          0 <= i < |front| && front[i] == Trial(combo, Success(score))
          && forall j :: i < j < |front| && front[j].combo == combo ==> !front[j].result.Success?;
        assert good[i] == Trial(combo, Success(score));
        assert forall j :: i < j < |front| ==> good[j] == front[j];
      }
    }
  }

  lemma MissOrderIsTotal()
    ensures TotalPreorder(MissLeq())
  {
    forall a, b ensures MissLeq()(a, b) || MissLeq()(b, a) {
      LexTotal(CandidateIdentity.Codes(a.raw), CandidateIdentity.Codes(b.raw));
    }
    forall a, b, c | MissLeq()(a, b) && MissLeq()(b, c) ensures MissLeq()(a, c) {
      if a.drop == b.drop == c.drop {
        LexTransitive(CandidateIdentity.Codes(a.raw), CandidateIdentity.Codes(b.raw), CandidateIdentity.Codes(c.raw));
      }
    }
  }

  /** The suspects with what each cost, in increasing order of the cost. */
  ghost predicate AreLeast(misses: seq<NearMiss>, few: seq<NearMiss>, limit: nat) {
    && |few| == (if |misses| < limit then |misses| else limit)
    && (forall i :: 0 <= i < |few| ==> few[i] in misses)
    && (forall i, j :: 0 <= i < j < |few| ==>
          || few[i].drop < few[j].drop
          || (few[i].drop == few[j].drop
              && LexLeq(CandidateIdentity.Codes(few[i].raw), CandidateIdentity.Codes(few[j].raw))))
    && (forall m :: m in misses && m !in few ==> forall i :: 0 <= i < |few| ==> few[i].drop <= m.drop)
  }

  lemma SuspectsAreLeast(history: seq<Trial>, center: Combo, t: Tuning) returns (few: seq<NearMiss>)
    ensures
      var good := Successes(history);
      match ScoreFor(good, center)
      case None => Suspects(history, center, t) == [] && few == []
      case Some(score) =>
        && AreLeast(NearMisses(good, center, score, t.low, t.high), few, t.suspects)
        && |Suspects(history, center, t)| == |few|
        && forall i :: 0 <= i < |few| ==> Suspects(history, center, t)[i] == few[i].raw
  {
    var good := Successes(history);
    few := [];
    if ScoreFor(good, center).Some? {
      var all := NearMisses(good, center, ScoreFor(good, center).value, t.low, t.high);
      hide NearMisses, ScoreFor, Successes, MissLeq;
      MissOrderIsTotal();
      SortPermutes(all, MissLeq());
      SortSorts(all, MissLeq());
      SortMembers(all, MissLeq());
      var sorted := Sort(all, MissLeq());
      few := if |sorted| > t.suspects then sorted[..t.suspects] else sorted;
      FirstOfSorted(all, sorted, few, t.suspects);
    }
  }

  lemma FirstOfSorted(all: seq<NearMiss>, sorted: seq<NearMiss>, few: seq<NearMiss>, limit: nat)
    requires multiset(sorted) == multiset(all) && SortedBy(sorted, MissLeq())
    requires forall m :: m in sorted <==> m in all
    requires few == if |sorted| > limit then sorted[..limit] else sorted
    ensures AreLeast(all, few, limit)
  {
    assert |sorted| == |multiset(sorted)| == |multiset(all)| == |all|;
    assert forall i, j :: 0 <= i < j < |sorted| ==> MissLeq()(sorted[i], sorted[j]);
    forall m, i | m in all && m !in few && 0 <= i < |few| ensures few[i].drop <= m.drop {
      var k :| 0 <= k < |sorted| && sorted[k] == m;
      assert MissLeq()(sorted[i], sorted[k]);
    }
  }

  /** One option more or less than the best combination. */
  ghost predicate IsNeighbour(options: Catalog, center: Combo, c: Combo) {
    exists o :: o in options && (if o.raw in center then c == center - {o.raw} else c == center + {o.raw})
  }

  lemma MutationsAreNeighbours(options: Catalog, history: seq<Trial>, c: Combo)
    ensures c in Mutations(options, history) <==> IsNeighbour(options, Center(history), c)
  {
    hide Center;
    var center, raws := Center(history), Sort(Raws(options), CandidateIdentity.TextLeq());
    SortMembers(Raws(options), CandidateIdentity.TextLeq());
    hide Sort;
    if c in Mutations(options, history) {
      var i :| 0 <= i < |raws| && Toggled(center, raws[i]) == c;
      assert IsKnown(options, raws[i]);
      KnownIff(options, raws[i]);
    }
    if o :| o in options && (if o.raw in center then c == center - {o.raw} else c == center + {o.raw}) {
      KnownIff(options, o.raw);
      var i :| 0 <= i < |raws| && raws[i] == o.raw;
      assert Mutations(options, history)[i] == c;
    }
  }

  /** The stream holds the warm-ups, the proposal, the neighbours of the best, the pairs of suspects and the picks. */
  lemma StreamIff(options: Catalog, history: seq<Trial>, t: Tuning, proposal: Combo, picks: seq<string>, c: Combo)
    ensures
      var suspects := Suspects(history, Center(history), t);
      c in Stream(options, history, t, proposal, picks) <==>
        || c == {"-O3"} || c == {"-O3", "-funroll-loops"} || c == proposal
        || IsNeighbour(options, Center(history), c)
        || (exists i, j :: 0 <= i < j < |suspects| && c == Center(history) + {suspects[i], suspects[j]})
        || (exists raw :: raw in picks && c == {raw})
  {
    hide Center, Suspects, Pairs, Mutations, IsNeighbour;
    var suspects := Suspects(history, Center(history), t);
    MutationsAreNeighbours(options, history, c);
    PairsAreExact(Center(history), suspects, c);
    assert c in Picked(picks) <==> exists raw :: raw in picks && c == {raw} by {
      if raw :| raw in picks && c == {raw} {
        var i :| 0 <= i < |picks| && picks[i] == raw;
        assert Picked(picks)[i] == c;
      }
    }
    hide Picked;
    assert c in WARMUP <==> c == {"-O3"} || c == {"-O3", "-funroll-loops"};
  }

  /** And in this order: the warm-ups, the proposal, then the neighbours by the option's text. */
  lemma StreamBegins(options: Catalog, history: seq<Trial>, t: Tuning, proposal: Combo, picks: seq<string>, k: nat)
    requires k < |options|
    ensures
      var stream, raws := Stream(options, history, t, proposal, picks), Sort(Raws(options), CandidateIdentity.TextLeq());
      && |stream| >= 3 + |options| && |raws| == |options|
      && stream[0] == {"-O3"} && stream[1] == {"-O3", "-funroll-loops"} && stream[2] == proposal
      && stream[3 + k] == Toggled(Center(history), raws[k])
  {
    hide Center, Suspects, Pairs, Toggled;
    SortPermutes(Raws(options), CandidateIdentity.TextLeq());
    hide Sort;
    var raws := Sort(Raws(options), CandidateIdentity.TextLeq());
    assert |raws| == |multiset(raws)| == |multiset(Raws(options))| == |options|;
  }
}
