/**
 The constraint layer, the proposing loop and the whole run: what is executed is new, known, free of
 conflicts and free of combinations that failed to compile, and so a run is bounded by the catalog.
 */
module SearchRun {
  import opened Wrappers
  import opened FiniteSets
  import opened SearchCandidates

  datatype Rejected = Rejected(combo: Combo, reason: Reason)

  /** What the soft block remembers. */
  datatype Suspicion = Suspicion(counts: map<Combo, nat>, forced: seq<Combo>)

  function CountOf(s: Suspicion, combo: Combo): nat {
    if combo in s.counts then s.counts[combo] else 0
  }

  /** A soft-blocked candidate is counted until it is forced through. */
  function SoftReason(s: Suspicion, blocked: set<Combo>, threshold: int, combo: Combo): (Option<Reason>, Suspicion) {
    if combo !in blocked || combo in s.forced then (None, s)
    else
      var count := CountOf(s, combo) + 1;
      if count >= threshold then (None, Suspicion(s.counts[combo := count], s.forced + [combo]))
      else (Some(SoftBlocked), Suspicion(s.counts[combo := count], s.forced))
  }

  /** `ConstraintLayer` */
  class ConstraintLayer {
    const options: Catalog
    const threshold: int
    const softBlocked: set<Combo>
    var suspicionCounts: map<Combo, nat>
    var forcedCandidates: seq<Combo>

    function Memory(): Suspicion
      reads this
    {
      Suspicion(suspicionCounts, forcedCandidates)
    }

    constructor (options: Catalog, threshold: int, softBlocked: set<Combo>)
      requires ValidCatalog(options)
      ensures this.options == options && this.threshold == threshold && this.softBlocked == softBlocked
      ensures Memory() == Suspicion(map[], [])
    {
      this.options, this.threshold, this.softBlocked := options, threshold, softBlocked;
      suspicionCounts, forcedCandidates := map[], [];
    }

    /** `validate` */
    method Validate(combo: Combo, history: seq<Trial>) returns (reason: Option<Reason>)
      modifies this
      ensures
        var hard := HardReason(options, history, combo);
        if hard.Some? then reason == hard && Memory() == old(Memory())
        else (reason, Memory()) == SoftReason(old(Memory()), softBlocked, threshold, combo)
    {
      if combo == {} {
        return Some(Empty);
      }
      if WasTried(history, combo) {
        return Some(Duplicate);
      }
      if exists raw :: raw in combo && !IsKnown(options, raw) {
        return Some(UnknownOption);
      }
      if HasConflict(options, combo) {
        return Some(Conflict);
      }
      if ContainsFailure(history, combo) {
        return Some(KnownFailedSubset);
      }
      if combo in softBlocked && combo !in forcedCandidates {
        var count := (if combo in suspicionCounts then suspicionCounts[combo] else 0) + 1;
        suspicionCounts := suspicionCounts[combo := count];
        if count >= threshold {
          forcedCandidates := forcedCandidates + [combo];
          return None;
        }
        return Some(SoftBlocked);
      }
      return None;
    }
  }

  /** A rejection is what the checks say, or a soft block of a candidate that passes them. */
  ghost predicate StandsAgainst(options: Catalog, history: seq<Trial>, blocked: set<Combo>, combo: Combo, reason: Reason) {
    var hard := HardReason(options, history, combo);
    if hard.Some? then reason == hard.value else reason == SoftBlocked && combo in blocked
  }

  /** The first candidates of the stream, each with what stands against it. */
  ghost predicate RejectedInOrder(
      options: Catalog, history: seq<Trial>, blocked: set<Combo>, stream: seq<Combo>, rejected: seq<Rejected>)
  {
    && |rejected| <= |stream|
    && forall i :: 0 <= i < |rejected| ==>
      && rejected[i].combo == stream[i]
      && StandsAgainst(options, history, blocked, stream[i], rejected[i].reason)
  }

  /** `FullAgentStrategy` */
  class FullAgentStrategy {
    const layer: ConstraintLayer
    const tuning: Tuning
    var rejections: seq<Rejected>

    constructor (layer: ConstraintLayer, tuning: Tuning)
      ensures this.layer == layer && this.tuning == tuning && rejections == []
    {
      this.layer, this.tuning := layer, tuning;
      rejections := [];
    }

    /** `propose`: the first candidate of the stream that nothing speaks against, or none. */
    method Propose(history: seq<Trial>, proposal: Combo, picks: seq<string>) returns (r: Option<Combo>)
      modifies this, layer
      ensures |old(rejections)| <= |rejections| && rejections[..|old(rejections)|] == old(rejections)
      ensures
        var stream, added := Stream(layer.options, history, tuning, proposal, picks), rejections[|old(rejections)|..];
        && RejectedInOrder(layer.options, history, layer.softBlocked, stream, added)
        && if r.Some? then |added| < |stream| && r.value == stream[|added|] else |added| == |stream|
      ensures r.Some? ==> HardReason(layer.options, history, r.value) == None
      ensures r.Some? && r.value in layer.softBlocked ==> r.value in layer.forcedCandidates
    {
      var stream := Stream(layer.options, history, tuning, proposal, picks);
      ghost var before, added := rejections, [];
      NoneRejected(layer.options, history, layer.softBlocked, stream);
      hide HardReason, Stream, SoftReason, RejectedInOrder, StandsAgainst;
      var k := 0;
      while k < |stream|
        invariant k <= |stream| && |added| == k && rejections == before + added
        invariant RejectedInOrder(layer.options, history, layer.softBlocked, stream, added)
      {
        ghost var memory := layer.Memory();
        var reason := layer.Validate(stream[k], history);
        if reason == None {
          Passed(layer.options, history, memory, layer.softBlocked, layer.threshold, stream[k]);
          assert rejections[|before|..] == added;
          return Some(stream[k]);
        }
        OneMoreRejected(layer.options, history, memory, layer.softBlocked, layer.threshold, stream, added, reason.value);
        rejections := rejections + [Rejected(stream[k], reason.value)];
        added := added + [Rejected(stream[k], reason.value)];
        k := k + 1;
      }
      assert rejections[|before|..] == added;
      return None;
    }
  }

  lemma NoneRejected(options: Catalog, history: seq<Trial>, blocked: set<Combo>, stream: seq<Combo>)
    ensures RejectedInOrder(options, history, blocked, stream, [])
  {}

  lemma Passed(options: Catalog, history: seq<Trial>, s: Suspicion, blocked: set<Combo>, threshold: int, combo: Combo)
    requires HardReason(options, history, combo) == None
    ensures
      var (reason, after) := SoftReason(s, blocked, threshold, combo);
      reason == None && combo in blocked ==> combo in after.forced
  {}

  lemma OneMoreRejected(
      options: Catalog, history: seq<Trial>, s: Suspicion, blocked: set<Combo>, threshold: int,
      stream: seq<Combo>, rejected: seq<Rejected>, reason: Reason)
    requires RejectedInOrder(options, history, blocked, stream, rejected) && |rejected| < |stream|
    requires
      var combo := stream[|rejected|];
      var hard := HardReason(options, history, combo);
      Some(reason) == if hard.Some? then hard else SoftReason(s, blocked, threshold, combo).0
    ensures RejectedInOrder(options, history, blocked, stream, rejected + [Rejected(stream[|rejected|], reason)])
  {
    hide HardReason;
  }

  /** One round as the outside decides it: the free proposal, the random draws, and how a trial comes out. */
  datatype Round = Round(proposal: Combo, picks: seq<string>, outcome: Combo -> Outcome)

  /** Every trial passed the checks against the trials before it. */
  ghost predicate IsChecked(options: Catalog, history: seq<Trial>) {
    forall i :: 0 <= i < |history| ==> HardReason(options, history[..i], history[i].combo) == None
  }

  function CombosOf(history: seq<Trial>): set<Combo> {
    set i | 0 <= i < |history| :: history[i].combo
  }

  datatype RunResult = RunResult(trials: seq<Trial>, exhausted: bool) {
    function UniqueComboCount(): nat {
      |CombosOf(trials)|
    }

    function DuplicateTrialRate(): real {
      if trials == [] then 0.0 else (|trials| - UniqueComboCount()) as real / |trials| as real
    }
  }

  /** Every trial was proposed in its round and came out as that round decided. */
  ghost predicate Follows(options: Catalog, t: Tuning, trials: seq<Trial>, rounds: seq<Round>) {
    && |trials| <= |rounds|
    && forall i :: 0 <= i < |trials| ==>
      && trials[i].result == rounds[i].outcome(trials[i].combo)
      && trials[i].combo in Stream(options, trials[..i], t, rounds[i].proposal, rounds[i].picks)
  }

  /** Nothing that is thought of in this round may be executed. */
  ghost predicate NothingLeft(options: Catalog, t: Tuning, trials: seq<Trial>, blocked: set<Combo>, round: Round) {
    forall c :: c in Stream(options, trials, t, round.proposal, round.picks) ==>
      HardReason(options, trials, c).Some? || c in blocked
  }

  lemma NextTrial(options: Catalog, t: Tuning, trials: seq<Trial>, rounds: seq<Round>, next: Trial)
    requires IsChecked(options, trials) && Follows(options, t, trials, rounds) && |trials| < |rounds|
    requires HardReason(options, trials, next.combo) == None
    requires var round := rounds[|trials|];
      && next.result == round.outcome(next.combo)
      && next.combo in Stream(options, trials, t, round.proposal, round.picks)
    ensures IsChecked(options, trials + [next]) && Follows(options, t, trials + [next], rounds)
  {
    hide HardReason, Stream;
    var more := trials + [next];
    assert forall i :: 0 <= i < |trials| ==> more[..i] == trials[..i];
    assert more[..|trials|] == trials;
  }

  lemma RefusedMeansNothingLeft(
      options: Catalog, t: Tuning, trials: seq<Trial>, blocked: set<Combo>, round: Round, rejected: seq<Rejected>)
    requires var stream := Stream(options, trials, t, round.proposal, round.picks);
      RejectedInOrder(options, trials, blocked, stream, rejected) && |rejected| == |stream|
    ensures NothingLeft(options, t, trials, blocked, round)
  {
    hide HardReason, Stream;
    var stream := Stream(options, trials, t, round.proposal, round.picks);
    forall c | c in stream ensures HardReason(options, trials, c).Some? || c in blocked {
      var i :| 0 <= i < |stream| && stream[i] == c;
      assert StandsAgainst(options, trials, blocked, stream[i], rejected[i].reason);
    }
  }

  /** `run_strategy`; `None` stands for the error raised without rounds. */
  method RunStrategy(strategy: FullAgentStrategy, rounds: seq<Round>) returns (r: Option<RunResult>)
    modifies strategy, strategy.layer
    ensures r == None <==> rounds == []
    ensures r.Some? ==>
      var options, trials := strategy.layer.options, r.value.trials;
      && IsChecked(options, trials) && Follows(options, strategy.tuning, trials, rounds)
      && (r.value.exhausted <==> |trials| < |rounds|)
      && (r.value.exhausted ==>
            NothingLeft(options, strategy.tuning, trials, strategy.layer.softBlocked, rounds[|trials|]))
  {
    if rounds == [] {
      return None;
    }
    hide HardReason, Stream, RejectedInOrder, NothingLeft;
    var options, t := strategy.layer.options, strategy.tuning;
    var history: seq<Trial> := [];
    assert IsChecked(options, history) && Follows(options, t, history, rounds);
    hide IsChecked, Follows;
    for n := 0 to |rounds|
      invariant |history| == n && IsChecked(options, history) && Follows(options, t, history, rounds)
    {
      ghost var before := strategy.rejections;
      var combo := strategy.Propose(history, rounds[n].proposal, rounds[n].picks);
      if combo == None {
        RefusedMeansNothingLeft(options, t, history, strategy.layer.softBlocked, rounds[n], strategy.rejections[|before|..]);
        return Some(RunResult(history, true));
      }
      var next := Trial(combo.value, rounds[n].outcome(combo.value));
      NextTrial(options, t, history, rounds, next);
      history := history + [next];
    }
    return Some(RunResult(history, false));
  }

  /** What the checks mean for a whole run. */
  lemma CheckedRunsNeverRepeat(options: Catalog, history: seq<Trial>)
    requires IsChecked(options, history)
    ensures forall i, j :: 0 <= i < j < |history| ==> history[i].combo != history[j].combo
    ensures forall i :: 0 <= i < |history| ==> history[i].combo != {} && !Clash(options, history[i].combo)
    ensures forall i, raw :: 0 <= i < |history| && raw in history[i].combo ==> IsKnown(options, raw)
    ensures forall i, j :: 0 <= i < j < |history| && history[i].result.CompileFailed? ==>
      !(history[i].combo <= history[j].combo)
  {
    forall i | 0 <= i < |history| ensures !Clash(options, history[i].combo) {
      assert HardReason(options, history[..i], history[i].combo) == None;
      ClashIff(options, history[i].combo);
    }
    forall i | 0 <= i < |history|
      ensures history[i].combo != {} && !HasConflict(options, history[i].combo)
      ensures forall raw :: raw in history[i].combo ==> IsKnown(options, raw)
      ensures forall k :: 0 <= k < i ==> history[k].combo != history[i].combo
      ensures forall k :: 0 <= k < i && history[k].result.CompileFailed? ==> !(history[k].combo <= history[i].combo)
    {
      assert HardReason(options, history[..i], history[i].combo) == None;
      assert forall k :: 0 <= k < i ==> history[..i][k] == history[k];
    }
  }

  function Pow2(n: nat): nat {
    if n == 0 then 1 else 2 * Pow2(n - 1)
  }

  lemma {:induction false} RemovalKeepsCount(sets: set<Combo>, x: string)
    requires forall c :: c in sets ==> x in c
    ensures |set c | c in sets :: c - {x}| == |sets|
    decreases |sets|
  {
    if sets != {} {
      var c :| c in sets;
      RemovalKeepsCount(sets - {c}, x);
      var fewer := set d | d in sets - {c} :: d - {x};
      assert (set d | d in sets :: d - {x}) == fewer + {c - {x}};
      forall d | d in sets - {c} ensures d - {x} != c - {x} {
        assert d == (d - {x}) + {x} && c == (c - {x}) + {x};
      }
    } else {
      assert (set c | c in sets :: c - {x}) == {};
    }
  }

  /** A set has at most 2^n subsets. */
  lemma {:induction false} SubsetsBound(all: Combo, sets: set<Combo>)
    requires forall c :: c in sets ==> c <= all
    ensures |sets| <= Pow2(|all|)
    decreases |all|
  {
    if all == {} {
      assert forall c :: c in sets ==> c == {};
      SubsetSize(sets, {{}});
    } else {
      var x :| x in all;
      var with, without := set c | c in sets && x in c, set c | c in sets && x !in c;
      assert sets == with + without && with !! without;
      RemovalKeepsCount(with, x);
      SubsetsBound(all - {x}, set c | c in with :: c - {x});
      SubsetsBound(all - {x}, without);
    }
  }

  lemma {:induction false} DistinctCombosCount(history: seq<Trial>)
    requires forall i, j :: 0 <= i < j < |history| ==> history[i].combo != history[j].combo
    ensures |CombosOf(history)| == |history|
  {
    if history != [] {
      var front, last := history[..|history| - 1], history[|history| - 1];
      DistinctCombosCount(front);
      assert CombosOf(history) == CombosOf(front) + {last.combo};
      assert last.combo !in CombosOf(front);
    } else {
      assert CombosOf(history) == {};
    }
  }

  ghost function RawSet(options: Catalog): Combo {
    set i | 0 <= i < |options| :: options[i].raw
  }

  lemma {:induction false} RawSetSize(options: Catalog)
    ensures |RawSet(options)| <= |options|
  {
    if options != [] {
      var front, last := options[..|options| - 1], options[|options| - 1];
      RawSetSize(front);
      assert RawSet(options) == RawSet(front) + {last.raw};
    } else {
      assert RawSet(options) == {};
    }
  }

  lemma {:induction false} Pow2Grows(m: nat, n: nat)
    requires m <= n
    ensures Pow2(m) <= Pow2(n)
  {
    if m < n {
      Pow2Grows(m, n - 1);
    }
  }

  lemma CombosAreKnown(options: Catalog, history: seq<Trial>)
    requires forall i, raw :: 0 <= i < |history| && raw in history[i].combo ==> IsKnown(options, raw)
    requires forall i :: 0 <= i < |history| ==> history[i].combo != {}
    ensures forall c :: c in CombosOf(history) ==> c <= RawSet(options) && c != {}
  {
    forall c | c in CombosOf(history) ensures c <= RawSet(options) && c != {} {
      var i :| 0 <= i < |history| && history[i].combo == c;
      forall raw | raw in c ensures raw in RawSet(options) {
        assert IsKnown(options, raw);
        var k :| 0 <= k < |options| && Raws(options)[k] == raw;
        assert options[k].raw == raw;
      }
    }
  }

  lemma FewCombos(options: Catalog, combos: set<Combo>)
    requires forall c :: c in combos ==> c <= RawSet(options) && c != {}
    ensures |combos| <= Pow2(|options|) - 1
  {
    hide Pow2, RawSet;
    var all := RawSet(options);
    SubsetsBound(all, combos + {{}});
    assert {} !in combos;
    RawSetSize(options);
    Pow2Grows(|all|, |options|);
  }

  /** A run has no duplicate trial, and fewer trials than the catalog has subsets. */
  lemma RunsAreBounded(options: Catalog, result: RunResult)
    requires IsChecked(options, result.trials)
    ensures result.DuplicateTrialRate() == 0.0 && result.UniqueComboCount() == |result.trials|
    ensures |result.trials| <= Pow2(|options|) - 1
  {
    CheckedRunsNeverRepeat(options, result.trials);
    DistinctCombosCount(result.trials);
    CombosAreKnown(options, result.trials);
    hide IsChecked, HasConflict, Pow2, CombosOf, RawSet, IsKnown;
    FewCombos(options, CombosOf(result.trials));
    NoDuplicateNoRate(result);
  }

  /** The rate is the share of trials that repeat an earlier combination. */
  lemma DuplicateRateMeans(result: RunResult)
    requires result.trials != []
    ensures result.DuplicateTrialRate() * |result.trials| as real == (|result.trials| - |CombosOf(result.trials)|) as real
  {}

  /** With the default catalog that is 255. */
  lemma DefaultRunsAreShort(result: RunResult)
    requires IsChecked(DEFAULT_OPTIONS, result.trials)
    ensures |result.trials| <= 255
  {
    RunsAreBounded(DEFAULT_OPTIONS, result);
    hide IsChecked, CombosOf;
    assert Pow2(8) == 2 * Pow2(7) == 4 * Pow2(6) == 8 * Pow2(5) == 16 * Pow2(4) == 32 * Pow2(3) == 64 * Pow2(2);
  }

  lemma NoDuplicateNoRate(result: RunResult)
    requires |CombosOf(result.trials)| == |result.trials|
    ensures result.DuplicateTrialRate() == 0.0 && result.UniqueComboCount() == |result.trials|
  {
    hide CombosOf;
    if result.trials != [] {
      var n := |result.trials| as real;
      assert n > 0.0 && 0.0 / n == 0.0;
    }
  }

  /** The best combination is that of a trial, or empty. */
  lemma CenterIsATrial(trials: seq<Trial>)
    ensures Center(trials) == {} || exists i :: 0 <= i < |trials| && trials[i].combo == Center(trials)
  {
    var good := Successes(trials);
    SuccessesAreTrials(trials);
    if good != [] {
      assert good[BestIndex(good)] in good;
    }
  }

  lemma {:induction false} SuccessesAreTrials(trials: seq<Trial>)
    ensures forall t :: t in Successes(trials) ==> t in trials
  {
    if trials != [] {
      SuccessesAreTrials(trials[..|trials| - 1]);
    }
  }

  /**
   A run that stops early has tried, or been forbidden, everything one option away from its best
   combination.
   */
  lemma ExhaustionIsLocal(options: Catalog, trials: seq<Trial>, t: Tuning, last: Round, blocked: set<Combo>, raw: string)
    requires IsChecked(options, trials) && NothingLeft(options, t, trials, blocked, last) && IsKnown(options, raw)
    ensures
      var c := Toggled(Center(trials), raw);
      c == {} || WasTried(trials, c) || HasConflict(options, c) || ContainsFailure(trials, c) || c in blocked
  {
    NeighboursAreOffered(options, trials, t, last.proposal, last.picks, raw);
    CheckedRunsNeverRepeat(options, trials);
    CenterIsATrial(trials);
    hide Stream, Center, HasConflict, WasTried, ContainsFailure, IsKnown, IsChecked;
    var c := Toggled(Center(trials), raw);
    assert HardReason(options, trials, c).Some? || c in blocked;
    assert forall x :: x in c ==> x in Center(trials) || x == raw;
  }

  /** The soft block after `n` candidates of this kind in a row. */
  function Repeated(s: Suspicion, blocked: set<Combo>, threshold: int, combo: Combo, n: nat): Suspicion {
    if n == 0 then s else SoftReason(Repeated(s, blocked, threshold, combo, n - 1), blocked, threshold, combo).1
  }

  lemma {:induction false} RepeatedCounts(s: Suspicion, blocked: set<Combo>, threshold: int, combo: Combo, n: nat)
    requires combo in blocked && combo !in s.forced && CountOf(s, combo) == 0
    ensures
      var after := Repeated(s, blocked, threshold, combo, n);
      && (n > 0 && n >= threshold <==> combo in after.forced)
      && (combo !in after.forced ==> CountOf(after, combo) == n)
  {
    if n > 0 {
      RepeatedCounts(s, blocked, threshold, combo, n - 1);
    }
  }

  /** A soft-blocked candidate is let through from the `threshold`-th time on, and not before. */
  lemma SoftBlockYieldsIff(s: Suspicion, blocked: set<Combo>, threshold: int, combo: Combo, n: nat)
    requires combo in blocked && combo !in s.forced && CountOf(s, combo) == 0 && n >= 1
    ensures SoftReason(Repeated(s, blocked, threshold, combo, n - 1), blocked, threshold, combo).0 == None <==> n >= threshold
  {
    RepeatedCounts(s, blocked, threshold, combo, n - 1);
  }

  /** `SyntheticObjective.evaluate`, with the infrastructure draw and the score given. */
  function Evaluate(combo: Combo, infra: bool, score: real): Outcome {
    if "-O3" in combo && "-Os" in combo then CompileFailed else if infra then InfraFailure else Success(score)
  }

  /** With the default catalog the conflict check keeps every failing compilation out of the run. */
  lemma DefaultRunsCompile(history: seq<Trial>, i: nat, infra: bool, score: real)
    requires IsChecked(DEFAULT_OPTIONS, history) && i < |history|
    requires history[i].result == Evaluate(history[i].combo, infra, score)
    ensures !history[i].result.CompileFailed? && (history[i].result.InfraFailure? <==> infra)
  {
    hide Clash;
    CheckedRunsNeverRepeat(DEFAULT_OPTIONS, history);
    if history[i].result.CompileFailed? {
      DefaultConflict(history[i].combo);
    }
  }

  lemma DefaultConflict(combo: Combo)
    requires "-O3" in combo && "-Os" in combo
    ensures Clash(DEFAULT_OPTIONS, combo)
  {
    assert DEFAULT_OPTIONS[0] in DEFAULT_OPTIONS && DEFAULT_OPTIONS[1] in DEFAULT_OPTIONS;
    assert DEFAULT_OPTIONS[0].raw == "-O3" && DEFAULT_OPTIONS[1].raw == "-Os";
    assert DEFAULT_OPTIONS[1].id in DEFAULT_OPTIONS[0].conflicts;
  }
}
