/**
 Percentile interval and two-sided bootstrap p-value of one sorted list of bootstrap values, and the
 duality between them: an interval that excludes zero caps the p-value, and a small enough p-value
 forces the interval to exclude zero.
 */
module Quantile {
  import opened RealSeq

  ghost predicate Ascending(v: seq<real>) {
    forall i, j :: 0 <= i < j < |v| ==> v[i] <= v[j]
  }

  function Ceil(x: real): int {
    -((-x).Floor)
  }

  /** Where the `q`-quantile of `n` sorted values sits. */
  function Position(n: nat, q: real): real
    requires n > 0
  {
    (n - 1) as real * q
  }

  predicate InRange(n: nat, position: real) {
    0.0 <= position <= n as real - 1.0
  }

  /** The value at a fractional index, by linear interpolation between its two neighbours. */
  function ValueAt(v: seq<real>, position: real): real
    requires InRange(|v|, position)
  {
    var lowerIndex, upperIndex := position.Floor, Ceil(position);
    if lowerIndex == upperIndex then v[lowerIndex]
    else v[lowerIndex] + (v[upperIndex] - v[lowerIndex]) * (position - lowerIndex as real)
  }

  lemma PositionInRange(n: nat, q: real)
    requires n > 0 && 0.0 <= q <= 1.0
    ensures InRange(n, Position(n, q))
  {
    var m := (n - 1) as real;
    ProductNonNegative(m, q);
    ProductNonNegative(m, 1.0 - q);
    assert m * (1.0 - q) == m - m * q;
  }

  /** `_quantile_sorted`. */
  function QuantileSorted(v: seq<real>, q: real): real
    requires v != [] && 0.0 <= q <= 1.0
  {
    PositionInRange(|v|, q);
    ValueAt(v, Position(|v|, q))
  }

  /** A point part of the way from `a` up to `b`. */
  lemma Interpolate(a: real, b: real, w: real)
    requires a <= b && 0.0 <= w < 1.0
    ensures a <= a + (b - a) * w <= b
    ensures a < b ==> a + (b - a) * w < b
  {
    var d := b - a;
    var dw, rest := d * w, d * (1.0 - w);
    assert dw + rest == d;
    if d > 0.0 {
      PositiveProduct(d, 1.0 - w, rest);
    }
  }

  /** The value lies between its two neighbours, and below the upper one unless the index is whole. */
  lemma Neighbours(v: seq<real>, p: real)
    requires Ascending(v) && InRange(|v|, p)
    ensures 0 <= p.Floor <= Ceil(p) < |v|
    ensures v[p.Floor] <= ValueAt(v, p) <= v[Ceil(p)]
    ensures p.Floor < Ceil(p) && v[p.Floor] < v[Ceil(p)] ==> ValueAt(v, p) < v[Ceil(p)]
  {
    if p.Floor < Ceil(p) {
      Interpolate(v[p.Floor], v[Ceil(p)], p - p.Floor as real);
    }
  }

  /** Values grow with the position. */
  lemma ValueMonotone(v: seq<real>, p: real, p': real)
    requires Ascending(v) && InRange(|v|, p) && InRange(|v|, p') && p <= p'
    ensures ValueAt(v, p) <= ValueAt(v, p')
  {
    if p.Floor == p'.Floor {
      SameCellMonotone(v, p, p');
    } else {
      Neighbours(v, p);
      Neighbours(v, p');
      assert Ceil(p) <= p'.Floor;
    }
  }

  lemma SameCellMonotone(v: seq<real>, p: real, p': real)
    requires Ascending(v) && InRange(|v|, p) && InRange(|v|, p') && p <= p' && p.Floor == p'.Floor
    ensures ValueAt(v, p) <= ValueAt(v, p')
  {
    var l := p.Floor;
    if l < Ceil(p) {
      var d := v[l + 1] - v[l];
      var w, w' := p - l as real, p' - l as real;
      ProductNonNegative(d, w' - w);
      assert d * (w' - w) == d * w' - d * w;
    } else if l < Ceil(p') {
      Interpolate(v[l], v[l + 1], p' - l as real);
    }
  }

  lemma PositionMonotone(n: nat, q: real, q': real)
    requires n > 0 && q <= q'
    ensures Position(n, q) <= Position(n, q')
  {
    var m := (n - 1) as real;
    ProductNonNegative(m, q' - q);
    assert m * (q' - q) == m * q' - m * q;
  }

  /** Quantiles grow with `q`, from the least value to the greatest. */
  lemma QuantileMonotone(v: seq<real>, q: real, q': real)
    requires v != [] && Ascending(v) && 0.0 <= q <= q' <= 1.0
    ensures v[0] <= QuantileSorted(v, q) <= QuantileSorted(v, q') <= v[|v| - 1]
  {
    PositionInRange(|v|, q);
    PositionInRange(|v|, q');
    PositionMonotone(|v|, q, q');
    var p, p' := Position(|v|, q), Position(|v|, q');
    hide Position, ValueAt;
    ValueMonotone(v, p, p');
    Neighbours(v, p);
    Neighbours(v, p');
  }

  predicate NonPositive(x: real) { x <= 0.0 }

  predicate NonNegative(x: real) { x >= 0.0 }

  function Count(v: seq<real>, holds: real -> bool): nat {
    if v == [] then 0 else Count(v[..|v| - 1], holds) + if holds(v[|v| - 1]) then 1 else 0
  }

  /** `_bootstrap_two_sided_p_value`. */
  function TwoSidedPValue(v: seq<real>): real
    requires v != []
  {
    if forall i :: 0 <= i < |v| ==> v[i] == 0.0 then 1.0
    else
      var nonPositive, nonNegative := Count(v, NonPositive), Count(v, NonNegative);
      var tail := if nonNegative < nonPositive then nonNegative else nonPositive;
      var doubled := 2.0 * ((tail as real + 1.0) / (|v| as real + 1.0));
      if doubled < 1.0 then doubled else 1.0
  }

  lemma {:induction false} CountAtMost(v: seq<real>, holds: real -> bool)
    ensures Count(v, holds) <= |v|
  {
    if v != [] {
      CountAtMost(v[..|v| - 1], holds);
    }
  }

  /** Everything from `k` on fails the test: at most `k` values pass. */
  lemma {:induction false} CountBelow(v: seq<real>, holds: real -> bool, k: nat)
    requires k <= |v| && forall i :: k <= i < |v| ==> !holds(v[i])
    ensures Count(v, holds) <= k
  {
    if k == |v| {
      CountAtMost(v, holds);
    } else {
      CountBelow(v[..|v| - 1], holds, k);
    }
  }

  /** Everything before `k` fails the test: at most `|v| - k` values pass. */
  lemma {:induction false} CountAbove(v: seq<real>, holds: real -> bool, k: nat)
    requires k <= |v| && forall i :: 0 <= i < k ==> !holds(v[i])
    ensures Count(v, holds) <= |v| - k
  {
    if k < |v| {
      CountAbove(v[..|v| - 1], holds, k);
    } else if v != [] {
      CountBelow(v, holds, 0);
    }
  }

  /** Everything from `k` on passes: at least `|v| - k` values do. */
  lemma {:induction false} CountAtLeast(v: seq<real>, holds: real -> bool, k: nat)
    requires k <= |v| && forall i :: k <= i < |v| ==> holds(v[i])
    ensures Count(v, holds) >= |v| - k
  {
    if k < |v| {
      CountAtLeast(v[..|v| - 1], holds, k);
    }
  }

  /** Everything before `k` passes: at least `k` values do. */
  lemma {:induction false} CountPrefix(v: seq<real>, holds: real -> bool, k: nat)
    requires k <= |v| && forall i :: 0 <= i < k ==> holds(v[i])
    ensures Count(v, holds) >= k
  {
    if k == |v| {
      CountAtLeast(v, holds, 0);
    } else {
      CountPrefix(v[..|v| - 1], holds, k);
    }
  }

  lemma PValueInUnit(v: seq<real>)
    requires v != []
    ensures 0.0 < TwoSidedPValue(v) <= 1.0
  {}

  function TailBound(b: nat, rank: int): real {
    2.0 * ((rank as real + 1.0) / (b as real + 1.0))
  }

  lemma TailBoundMonotone(b: nat, r: int, r': int)
    ensures r <= r' ==> TailBound(b, r) <= TailBound(b, r')
    ensures TailBound(b, r) <= TailBound(b, r') ==> r <= r'
  {
    var d := b as real + 1.0;
    var x, y := (r as real + 1.0) / d, (r' as real + 1.0) / d;
    assert x * d == r as real + 1.0 && y * d == r' as real + 1.0;
    if r <= r' {
      CancelFactor(x, y, d, r as real + 1.0, r' as real + 1.0);
    }
    if x <= y {
      assert 0.0 <= (y - x) * d == y * d - x * d;
    }
  }

  /** The lower and upper tail probabilities of a two-sided interval. */
  function LowerTail(confidence: real): real {
    (1.0 - confidence) / 2.0
  }

  /** Position of the interval's lower end among `b` sorted values. */
  function TailPosition(b: nat, confidence: real): real
    requires b > 0
  {
    Position(b, LowerTail(confidence))
  }

  function CiLow(v: seq<real>, confidence: real): real
    requires v != [] && 0.0 < confidence < 1.0
  {
    QuantileSorted(v, LowerTail(confidence))
  }

  function CiHigh(v: seq<real>, confidence: real): real
    requires v != [] && 0.0 < confidence < 1.0
  {
    QuantileSorted(v, 1.0 - LowerTail(confidence))
  }

  ghost predicate ExcludesZero(v: seq<real>, confidence: real)
    requires v != [] && 0.0 < confidence < 1.0
  {
    CiLow(v, confidence) > 0.0 || CiHigh(v, confidence) < 0.0
  }

  lemma MirroredFloor(m: int, p: real)
    ensures (m as real - p).Floor == m - Ceil(p)
    ensures Ceil(m as real - p) == m - p.Floor
  {
    assert (p - m as real).Floor == p.Floor - m;
  }

  /** The interval's ends sit at mirrored positions. */
  lemma IntervalEnds(v: seq<real>, confidence: real) returns (p: real, p': real)
    requires v != [] && 0.0 < confidence < 1.0
    ensures p == TailPosition(|v|, confidence) && InRange(|v|, p) && InRange(|v|, p')
    ensures CiLow(v, confidence) == ValueAt(v, p) && CiHigh(v, confidence) == ValueAt(v, p')
    ensures p'.Floor == |v| - 1 - Ceil(p) && Ceil(p') == |v| - 1 - p.Floor
  {
    hide ValueAt;
    var a := LowerTail(confidence);
    PositionInRange(|v|, a);
    PositionInRange(|v|, 1.0 - a);
    p, p' := Position(|v|, a), Position(|v|, 1.0 - a);
    var m := (|v| - 1) as real;
    assert m * (1.0 - a) == m - m * a;
    MirroredFloor(|v| - 1, p);
  }

  /** The p-value is the doubled tail rate of the smaller tail, or 1. */
  lemma PValueOfTails(v: seq<real>)
    requires v != []
    ensures TwoSidedPValue(v) <= TailBound(|v|, Count(v, NonPositive))
    ensures TwoSidedPValue(v) <= TailBound(|v|, Count(v, NonNegative))
    ensures TwoSidedPValue(v) < 1.0 ==>
      || TwoSidedPValue(v) == TailBound(|v|, Count(v, NonPositive))
      || TwoSidedPValue(v) == TailBound(|v|, Count(v, NonNegative))
  {
    var nonPositive, nonNegative := Count(v, NonPositive), Count(v, NonNegative);
    TailBoundMonotone(|v|, nonPositive, nonNegative);
    TailBoundMonotone(|v|, nonNegative, nonPositive);
    if forall i :: 0 <= i < |v| ==> v[i] == 0.0 {
      CountAtLeast(v, NonPositive, 0);
      CountAtLeast(v, NonNegative, 0);
      WholeTail(|v|, nonPositive);
      WholeTail(|v|, nonNegative);
    }
  }

  lemma WholeTail(b: nat, rank: nat)
    requires rank >= b
    ensures TailBound(b, rank) >= 1.0
  {
    var d := b as real + 1.0;
    var x := (rank as real + 1.0) / d;
    assert x * d == rank as real + 1.0;
    CancelFactor(1.0, x, d, d, rank as real + 1.0);
  }

  /** An interval strictly on one side of zero caps the p-value. */
  lemma ExclusionCapsPValue(v: seq<real>, confidence: real)
    requires v != [] && Ascending(v) && 0.0 < confidence < 1.0
    requires ExcludesZero(v, confidence)
    ensures TwoSidedPValue(v) <= TailBound(|v|, Ceil(TailPosition(|v|, confidence)))
  {
    var p, p' := IntervalEnds(v, confidence);
    hide TailBound, TwoSidedPValue, TailPosition, CiLow, CiHigh, ValueAt;
    Neighbours(v, p);
    Neighbours(v, p');
    PValueOfTails(v);
    if ValueAt(v, p) > 0.0 {
      CountBelow(v, NonPositive, Ceil(p));
      TailBoundMonotone(|v|, Count(v, NonPositive), Ceil(p));
    } else {
      CountAbove(v, NonNegative, |v| - Ceil(p));
      TailBoundMonotone(|v|, Count(v, NonNegative), Ceil(p));
    }
  }

  /** The bound at the rounded-down rank is no empty one. */
  lemma FloorBoundBelowOne(b: nat, confidence: real)
    requires b >= 2 && 0.0 < confidence < 1.0
    ensures TailBound(b, TailPosition(b, confidence).Floor) < 1.0
  {
    var p, half, m := TailPosition(b, confidence), 0.5 - LowerTail(confidence), (b - 1) as real;
    PositiveProduct(half, m, half * m);
    assert half * m == 0.5 * m - p;
    var d, l := b as real + 1.0, p.Floor as real + 1.0;
    assert 2.0 * l < d;
    var x := l / d;
    assert x * d == l;
    if x >= 0.5 {
      ProductNonNegative(x - 0.5, d);
      assert (x - 0.5) * d == l - 0.5 * d;
    }
  }

  /** A p-value within the floor bound puts the interval strictly on one side of zero. */
  lemma SmallPValueForcesExclusion(v: seq<real>, confidence: real)
    requires |v| >= 2 && Ascending(v) && 0.0 < confidence < 1.0
    requires TwoSidedPValue(v) <= TailBound(|v|, TailPosition(|v|, confidence).Floor)
    ensures ExcludesZero(v, confidence)
  {
    FloorBoundBelowOne(|v|, confidence);
    var p, p' := IntervalEnds(v, confidence);
    hide TailBound, TwoSidedPValue, TailPosition, CiLow, CiHigh, ValueAt;
    Neighbours(v, p);
    Neighbours(v, p');
    PValueOfTails(v);
    var l, k := p.Floor, |v| - 1 - p.Floor;
    if TwoSidedPValue(v) == TailBound(|v|, Count(v, NonPositive)) {
      TailBoundMonotone(|v|, Count(v, NonPositive), l);
      if v[l] <= 0.0 {
        CountPrefix(v, NonPositive, l + 1);
        assert false;
      }
    } else {
      TailBoundMonotone(|v|, Count(v, NonNegative), l);
      if v[k] >= 0.0 {
        CountAtLeast(v, NonNegative, k);
        assert false;
      }
    }
  }

  /** With a whole tail rank the two tests are the same test. */
  lemma ExactDuality(v: seq<real>, confidence: real)
    requires |v| >= 2 && Ascending(v) && 0.0 < confidence < 1.0
    requires TailPosition(|v|, confidence).Floor as real == TailPosition(|v|, confidence)
    ensures ExcludesZero(v, confidence) <==>
      TwoSidedPValue(v) <= TailBound(|v|, TailPosition(|v|, confidence).Floor)
  {
    hide TailBound, TwoSidedPValue, TailPosition, CiLow, CiHigh;
    if ExcludesZero(v, confidence) {
      ExclusionCapsPValue(v, confidence);
    }
    if TwoSidedPValue(v) <= TailBound(|v|, TailPosition(|v|, confidence).Floor) {
      SmallPValueForcesExclusion(v, confidence);
    }
  }

  /** At the defaults (2000 samples, 95%) significance means a p-value of at most 102/2001. */
  lemma DefaultSignificance(v: seq<real>)
    requires |v| == 2000 && Ascending(v) && ExcludesZero(v, 0.95)
    ensures TwoSidedPValue(v) <= 102.0 / 2001.0
  {
    ExclusionCapsPValue(v, 0.95);
    assert TailPosition(2000, 0.95) == 49.975;
    assert (-49.975).Floor == -50;
  }

  /** The interval is ordered and lies within the values. */
  lemma IntervalOrdered(v: seq<real>, confidence: real)
    requires v != [] && Ascending(v) && 0.0 < confidence < 1.0
    ensures v[0] <= CiLow(v, confidence) <= CiHigh(v, confidence) <= v[|v| - 1]
  {
    QuantileMonotone(v, LowerTail(confidence), 1.0 - LowerTail(confidence));
  }
}
