/**
 What the full agent may try and what it thinks of: the option catalog, the memory of past trials, and
 the candidate stream of warm-ups, a free proposal, local mutations, guided pairs and random picks.
 */
module SearchCandidates {
  import opened Wrappers
  import opened Sorting
  import CandidateIdentity

  datatype OptionV0 = OptionV0(id: string, raw: string, conflicts: seq<string>)

  type Catalog = seq<OptionV0>

  type Combo = set<string>

  datatype Outcome = Success(score: real) | CompileFailed | InfraFailure

  datatype Trial = Trial(combo: Combo, result: Outcome)

  const DEFAULT_OPTIONS: Catalog := [
    OptionV0("opt_O3", "-O3", ["opt_Os"]), OptionV0("opt_Os", "-Os", ["opt_O3"]),
    OptionV0("opt_unroll", "-funroll-loops", []), OptionV0("opt_A", "-fA", []), OptionV0("opt_B", "-fB", []),
    OptionV0("opt_fast_math", "-ffast-math", []), OptionV0("opt_no_plt", "-fno-plt", []), OptionV0("opt_lto", "-flto", [])]

  /** Ids and raw options are unique, and conflicts name known ids. */
  ghost predicate ValidCatalog(options: Catalog) {
    && (forall i, j :: 0 <= i < j < |options| ==> options[i].id != options[j].id && options[i].raw != options[j].raw)
    && (forall i, k :: 0 <= i < |options| && 0 <= k < |options[i].conflicts| ==>
          exists j :: 0 <= j < |options| && options[j].id == options[i].conflicts[k])
  }

  function Raws(options: Catalog): seq<string> {
    seq(|options|, i requires 0 <= i < |options| => options[i].raw)
  }

  predicate IsKnown(options: Catalog, raw: string) {
    raw in Raws(options)
  }

  /** Two options of the combination are declared incompatible, by either of them. */
  predicate HasConflict(options: Catalog, combo: Combo) {
    exists i, j :: 0 <= i < |options| && 0 <= j < |options| && options[i].raw in combo && options[j].raw in combo
      && options[j].id in options[i].conflicts
  }

  predicate WasTried(history: seq<Trial>, combo: Combo) {
    exists i :: 0 <= i < |history| && history[i].combo == combo
  }

  predicate ContainsFailure(history: seq<Trial>, combo: Combo) {
    exists i :: 0 <= i < |history| && history[i].result.CompileFailed? && history[i].combo <= combo
  }

  datatype Reason = Empty | Duplicate | UnknownOption | Conflict | KnownFailedSubset | SoftBlocked

  /** The checks of `validate` that depend on the catalog and the history alone. */
  function HardReason(options: Catalog, history: seq<Trial>, combo: Combo): Option<Reason> {
    if combo == {} then Some(Empty)
    else if WasTried(history, combo) then Some(Duplicate)
    else if exists raw :: raw in combo && !IsKnown(options, raw) then Some(UnknownOption)
    else if HasConflict(options, combo) then Some(Conflict)
    else if ContainsFailure(history, combo) then Some(KnownFailedSubset)
    else None
  }

  /** Two options of the combination of which one names the other as a conflict. */
  ghost predicate Clash(options: Catalog, combo: Combo) {
    exists a, b :: a in options && b in options && a.raw in combo && b.raw in combo && b.id in a.conflicts
  }

  ghost predicate OnlyKnown(options: Catalog, combo: Combo) {
    forall raw :: raw in combo ==> exists o :: o in options && o.raw == raw
  }

  ghost predicate Tried(history: seq<Trial>, combo: Combo) {
    exists t :: t in history && t.combo == combo
  }

  /** Everything of some trial that failed to compile. */
  ghost predicate HoldsFailure(history: seq<Trial>, combo: Combo) {
    exists t :: t in history && t.result.CompileFailed? && forall raw :: raw in t.combo ==> raw in combo
  }

  lemma ClashIff(options: Catalog, combo: Combo)
    ensures HasConflict(options, combo) <==> Clash(options, combo)
  {
    if HasConflict(options, combo) {
      var i, j :|
        0 <= i < |options| && 0 <= j < |options| && options[i].raw in combo && options[j].raw in combo
        && options[j].id in options[i].conflicts;
      assert options[i] in options && options[j] in options;
    }
    if a, b :| a in options && b in options && a.raw in combo && b.raw in combo && b.id in a.conflicts {
      var i :| 0 <= i < |options| && options[i] == a;
      var j :| 0 <= j < |options| && options[j] == b;
      assert options[j].id in options[i].conflicts;
    }
  }

  lemma KnownIff(options: Catalog, raw: string)
    ensures IsKnown(options, raw) <==> exists o :: o in options && o.raw == raw
  {
    if i :| 0 <= i < |Raws(options)| && Raws(options)[i] == raw {
      assert options[i] in options;
    }
    if o :| o in options && o.raw == raw {
      var i :| 0 <= i < |options| && options[i] == o;
      assert Raws(options)[i] == raw;
    }
  }

  lemma PastIff(history: seq<Trial>, combo: Combo)
    ensures WasTried(history, combo) <==> Tried(history, combo)
    ensures ContainsFailure(history, combo) <==> HoldsFailure(history, combo)
  {
    if i :| 0 <= i < |history| && history[i].result.CompileFailed? && history[i].combo <= combo {
      assert history[i] in history;
    }
    if t :| t in history && t.result.CompileFailed? && forall raw :: raw in t.combo ==> raw in combo {
      var i :| 0 <= i < |history| && history[i] == t;
      assert history[i].combo <= combo;
    }
    if i :| 0 <= i < |history| && history[i].combo == combo {
      assert history[i] in history;
    }
  }

  /** A combination passes exactly when it is non-empty, new, known, without a clash and holds no failed one; the first of these that it is not is the reason. */
  lemma HardReasonIff(options: Catalog, history: seq<Trial>, combo: Combo)
    ensures HardReason(options, history, combo) ==
      if combo == {} then Some(Empty)
      else if Tried(history, combo) then Some(Duplicate)
      else if !OnlyKnown(options, combo) then Some(UnknownOption)
      else if Clash(options, combo) then Some(Conflict)
      else if HoldsFailure(history, combo) then Some(KnownFailedSubset)
      else None
  {
    ClashIff(options, combo);
    PastIff(history, combo);
    forall raw ensures IsKnown(options, raw) <==> exists o :: o in options && o.raw == raw {
      KnownIff(options, raw);
    }
    hide HasConflict, Clash, ContainsFailure, HoldsFailure, WasTried, Tried, IsKnown;
  }

  /** The score by which the best trial is picked: a score of zero counts as none. */
  function ScoreKey(score: real): Option<real> {
    if score == 0.0 then None else Some(score)
  }

  predicate Better(a: Option<real>, b: Option<real>) {
    a.Some? && (b == None || a.value > b.value)
  }

  function Key(t: Trial): Option<real> {
    if t.result.Success? then ScoreKey(t.result.score) else None
  }

  function Successes(history: seq<Trial>): seq<Trial> {
    if history == [] then []
    else
      var last := history[|history| - 1];
      Successes(history[..|history| - 1]) + if last.result.Success? then [last] else []
  }

  /** The first of the best. */
  function BestIndex(trials: seq<Trial>): (k: nat)
    requires trials != []
    ensures k < |trials|
    ensures forall j :: 0 <= j < |trials| ==> !Better(Key(trials[j]), Key(trials[k]))
    ensures forall j :: 0 <= j < k ==> Better(Key(trials[k]), Key(trials[j]))
  {
    if |trials| == 1 then 0
    else
      var n := |trials| - 1;
      var k := BestIndex(trials[..n]);
      if Better(Key(trials[n]), Key(trials[k])) then n else k
  }

  /** `_best_successful_combo` */
  function Center(history: seq<Trial>): Combo {
    var good := Successes(history);
    if good == [] then {} else good[BestIndex(good)].combo
  }

  lemma {:induction false} SuccessMembers(history: seq<Trial>)
    ensures forall t :: t in Successes(history) <==> t in history && t.result.Success?
  {
    if history != [] {
      SuccessMembers(history[..|history| - 1]);
      assert history == history[..|history| - 1] + [history[|history| - 1]];
    }
  }

  /** Some trial scored above zero, or none scored exactly zero, or all did. */
  ghost predicate ZeroIsHarmless(history: seq<Trial>) {
    || (exists t :: t in history && t.result.Success? && t.result.score > 0.0)
    || (forall t :: t in history && t.result.Success? ==> t.result.score != 0.0)
    || (forall t :: t in history && t.result.Success? ==> t.result.score == 0.0)
  }

  /** The combination of the first of the highest scores. */
  ghost predicate IsBest(history: seq<Trial>, t: Trial) {
    && t in history && t.result.Success?
    && forall u :: u in history && u.result.Success? ==> u.result.score <= t.result.score
  }

  /**
   The search moves around a trial that no other outscores, if and only if zero is harmless: a score of
   zero counts as none, and so every negative score is taken to be better.
   */
  lemma CenterIsBestIff(history: seq<Trial>)
    requires Successes(history) != []
    ensures
      var good := Successes(history);
      var best := good[BestIndex(good)];
      Center(history) == best.combo && (IsBest(history, best) <==> ZeroIsHarmless(history))
  {
    SuccessMembers(history);
    var good := Successes(history);
    var best := good[BestIndex(good)];
    assert best in good;
    forall u | u in history && u.result.Success? ensures !Better(Key(u), Key(best)) {
      assert u in good;
    }
  }

  /** With nonzero scores it is the first such trial. */
  lemma CenterIsFirstBest(history: seq<Trial>, j: nat)
    requires Successes(history) != [] && j < BestIndex(Successes(history))
    requires forall t :: t in history && t.result.Success? ==> t.result.score != 0.0
    ensures var good := Successes(history);
      good[j].result.Success? && good[BestIndex(good)].result.Success?
      && good[j].result.score < good[BestIndex(good)].result.score
  {
    SuccessMembers(history);
    var good := Successes(history);
    assert good[j] in good && good[BestIndex(good)] in good;
    assert Better(Key(good[BestIndex(good)]), Key(good[j]));
  }

  /** Of a trial that scored zero and one that lost, the search prefers the loser. */
  lemma ZeroLosesToNegative()
    ensures
      var history := [Trial({"-fA"}, Success(0.0)), Trial({"-fB"}, Success(-1.0))];
      Successes(history) == history && BestIndex(history) == 1 && Center(history) == {"-fB"}
  {
    var a, b := Trial({"-fA"}, Success(0.0)), Trial({"-fB"}, Success(-1.0));
    assert [a, b][..1] == [a] && [a][..0] == [];
    assert Successes([a]) == [] + [a];
    assert [a] + [b] == [a, b];
  }

  /** `_score_for`: the latest score of a combination. */
  function ScoreFor(good: seq<Trial>, combo: Combo): Option<real> {
    if good == [] then None
    else
      var last := good[|good| - 1];
      if last.combo == combo && last.result.Success? then Some(last.result.score)
      else ScoreFor(good[..|good| - 1], combo)
  }

  datatype NearMiss = NearMiss(drop: real, raw: string)

  /** Trials that added one option to the center and lost a little by it. */
  function NearMisses(good: seq<Trial>, center: Combo, score: real, low: real, high: real): seq<NearMiss> {
    if good == [] then []
    else
      var front, last := NearMisses(good[..|good| - 1], center, score, low, high), good[|good| - 1];
      var added := last.combo - center;
      if |added| != 1 || !(center < last.combo) || !last.result.Success? then front
      else
        var drop := score - last.result.score;
        if low <= drop <= high then front + [NearMiss(drop, TheOne(added))] else front
  }

  function TheOne(s: Combo): (raw: string)
    requires |s| == 1
    ensures s == {raw}
  {
    OneElement(s);
    var raw :| raw in s;
    raw
  }

  lemma OneElement(s: Combo)
    requires |s| == 1
    ensures exists raw :: raw in s
    ensures forall a, b :: a in s && b in s ==> a == b
    ensures forall a :: a in s ==> s == {a}
  {
    forall a | a in s ensures s == {a} {
      assert |s - {a}| == 0;
    }
    assert s != {};
  }

  function MissLeq(): (NearMiss, NearMiss) -> bool {
    (a: NearMiss, b: NearMiss) =>
      a.drop < b.drop || (a.drop == b.drop && LexLeq(CandidateIdentity.Codes(a.raw), CandidateIdentity.Codes(b.raw)))
  }

  datatype Tuning = Tuning(low: real, high: real, suspects: nat)

  /** `near_miss_additions` */
  function Suspects(history: seq<Trial>, center: Combo, t: Tuning): seq<string> {
    var good := Successes(history);
    match ScoreFor(good, center)
    case None => []
    case Some(score) =>
      var misses := Sort(NearMisses(good, center, score, t.low, t.high), MissLeq());
      var few := if |misses| > t.suspects then misses[..t.suspects] else misses;
      seq(|few|, i requires 0 <= i < |few| => few[i].raw)
  }

  const WARMUP: seq<Combo> := [{"-O3"}, {"-O3", "-funroll-loops"}]

  function Toggled(center: Combo, raw: string): Combo {
    if raw in center then center - {raw} else center + {raw}
  }

  /** `_local_mutation_candidates` */
  function Mutations(options: Catalog, history: seq<Trial>): seq<Combo> {
    var raws := Sort(Raws(options), CandidateIdentity.TextLeq());
    seq(|raws|, i requires 0 <= i < |raws| => Toggled(Center(history), raws[i]))
  }

  /** The pairs of a list, in lexicographic order of positions. */
  function Pairs(center: Combo, suspects: seq<string>): seq<Combo> {
    if suspects == [] then []
    else
      var rest := suspects[1..];
      seq(|rest|, i requires 0 <= i < |rest| => center + {suspects[0], rest[i]}) + Pairs(center, rest)
  }

  /** `_random_candidates`, for the options that were drawn. */
  function Picked(picks: seq<string>): seq<Combo> {
    seq(|picks|, i requires 0 <= i < |picks| => {picks[i]})
  }

  /** `_candidate_stream` */
  function Stream(options: Catalog, history: seq<Trial>, t: Tuning, proposal: Combo, picks: seq<string>): seq<Combo> {
    WARMUP + [proposal] + Mutations(options, history)
    + Pairs(Center(history), Suspects(history, Center(history), t)) + Picked(picks)
  }

  /** Every combination one option away from the best one is thought of. */
  lemma NeighboursAreOffered(
      options: Catalog, history: seq<Trial>, t: Tuning, proposal: Combo, picks: seq<string>, raw: string)
    requires IsKnown(options, raw)
    ensures Toggled(Center(history), raw) in Stream(options, history, t, proposal, picks)
  {
    hide Toggled, Center, Suspects, Pairs, Sort;
    SortMembers(Raws(options), CandidateIdentity.TextLeq());
    var raws := Sort(Raws(options), CandidateIdentity.TextLeq());
    var i :| 0 <= i < |raws| && raws[i] == raw;
    var mutations := Mutations(options, history);
    assert mutations[i] == Toggled(Center(history), raw);
    assert mutations[i] in mutations;
  }

  /** Trial `i` added one option to the center and cost between `low` and `high` by it. */
  predicate MissAt(good: seq<Trial>, center: Combo, score: real, low: real, high: real, m: NearMiss, i: nat)
    requires i < |good|
  {
    && good[i].combo == center + {m.raw} && m.raw !in center
    && good[i].result.Success? && m.drop == score - good[i].result.score && low <= m.drop <= high
  }

  lemma {:induction false} NearMissesAreExact(
      good: seq<Trial>, center: Combo, score: real, low: real, high: real, m: NearMiss)
    ensures m in NearMisses(good, center, score, low, high) <==>
      exists i :: 0 <= i < |good| && MissAt(good, center, score, low, high, m, i)
  {
    if good != [] {
      var front, last := good[..|good| - 1], good[|good| - 1];
      NearMissesAreExact(front, center, score, low, high, m);
      OneAdded(center, last.combo);
      if i :| 0 <= i < |good| && MissAt(good, center, score, low, high, m, i) {
        if i < |front| {
          assert MissAt(front, center, score, low, high, m, i);
        } else {
          assert last.combo - center == {m.raw};
        }
      }
      if i :| 0 <= i < |front| && MissAt(front, center, score, low, high, m, i) {
        assert MissAt(good, center, score, low, high, m, i);
      }
      if m in NearMisses(good, center, score, low, high) && m !in NearMisses(front, center, score, low, high) {
        assert MissAt(good, center, score, low, high, m, |front|);
      }
    }
  }

  lemma OneAdded(center: Combo, combo: Combo)
    ensures |combo - center| == 1 && center < combo ==>
      combo == center + {TheOne(combo - center)} && TheOne(combo - center) !in center
  {
    if |combo - center| == 1 && center < combo {
      var raw := TheOne(combo - center);
      assert combo == center + (combo - center);
      assert raw in combo - center;
    }
  }

  /** The guided candidates add every pair of suspects to the center. */
  lemma {:induction false} PairsAreExact(center: Combo, suspects: seq<string>, c: Combo)
    ensures c in Pairs(center, suspects) <==>
      exists i, j :: 0 <= i < j < |suspects| && c == center + {suspects[i], suspects[j]}
  {
    if suspects != [] {
      var rest := suspects[1..];
      var heads := seq(|rest|, i requires 0 <= i < |rest| => center + {suspects[0], rest[i]});
      PairsAreExact(center, rest, c);
      if i, j :| 0 <= i < j < |suspects| && c == center + {suspects[i], suspects[j]} {
        if i == 0 {
          assert heads[j - 1] == c;
        } else {
          assert rest[i - 1] == suspects[i] && rest[j - 1] == suspects[j];
        }
      }
      if c in heads {
        var k :| 0 <= k < |heads| && heads[k] == c;
        assert suspects[k + 1] == rest[k];
      }
      if i, j :| 0 <= i < j < |rest| && c == center + {rest[i], rest[j]} {
        assert suspects[i + 1] == rest[i] && suspects[j + 1] == rest[j];
      }
    }
  }
}
