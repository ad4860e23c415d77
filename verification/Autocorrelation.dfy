/**
 Lagged autocorrelation, effective sample size and the diagnostics built on them.  `math.sqrt` is a
 parameter of which only the defining property is used.
 */
module Autocorrelation {
  import opened Wrappers
  import opened RealSeq
  import opened StatsTypes

  const RHO_THRESHOLD := 0.3
  const ACF_MIN_N := 8
  const MAX_LAG := 10

  ghost predicate IsSquareRoot(sqrt: real -> real) {
    forall x :: x >= 0.0 ==> sqrt(x) >= 0.0 && sqrt(x) * sqrt(x) == x
  }

  function Clamp(low: real, high: real, x: real): real {
    var capped := if x < high then x else high;
    if capped > low then capped else low
  }

  function Deviations(s: seq<real>): (d: seq<real>)
    ensures |d| == |s|
  {
    if s == [] then []
    else var m := Mean(s); seq(|s|, i requires 0 <= i < |s| => s[i] - m)
  }

  /** The segments correlated at a lag, as deviations from their own means. */
  function CurrentDeviations(scores: seq<real>, lag: nat): (d: seq<real>)
    requires lag < |scores|
    ensures |d| == |scores| - lag
  {
    Deviations(scores[lag..])
  }

  function PreviousDeviations(scores: seq<real>, lag: nat): (d: seq<real>)
    requires lag < |scores|
    ensures |d| == |scores| - lag
  {
    Deviations(scores[..|scores| - lag])
  }

  function Covariation(scores: seq<real>, lag: nat): real
    requires lag < |scores|
  {
    Dot(CurrentDeviations(scores, lag), PreviousDeviations(scores, lag))
  }

  /** Product of the two segments' sums of squares. */
  function VariationProduct(scores: seq<real>, lag: nat): real
    requires lag < |scores|
  {
    var x, y := CurrentDeviations(scores, lag), PreviousDeviations(scores, lag);
    Dot(x, x) * Dot(y, y)
  }

  /** `compute_lag_autocorrelation`. */
  function LagAutocorrelation(sqrt: real -> real, scores: seq<real>, lag: nat): Option<real>
    requires lag > 0
  {
    if |scores| <= lag then None
    else
      var denominator := sqrt(VariationProduct(scores, lag));
      if denominator == 0.0 then None
      else Some(Clamp(-1.0, 1.0, Covariation(scores, lag) / denominator))
  }

  /** A number whose square is at most `d * d` is at most `d` in absolute value. */
  lemma SquareOrder(x: real, d: real, xx: real, dd: real)
    requires d >= 0.0 && xx == x * x && dd == d * d && xx <= dd
    ensures -d <= x <= d
  {
    var low, high := x + d, x - d;
    assert low * high == xx - dd;
    if high > 0.0 {
      PositiveProduct(low, high, xx - dd);
      assert false;
    }
    if low < 0.0 {
      PositiveProduct(-low, -high, xx - dd);
      assert false;
    }
  }

  lemma QuotientInUnit(x: real, d: real)
    requires d > 0.0 && -d <= x <= d
    ensures -1.0 <= x / d <= 1.0
  {
    var r := x / d;
    assert r * d == x;
    CancelFactor(-1.0, r, d, -d, x);
    CancelFactor(r, 1.0, d, x, d);
  }

  lemma VariationNonNegative(scores: seq<real>, lag: nat)
    requires lag < |scores|
    ensures VariationProduct(scores, lag) >= 0.0
  {
    var x, y := CurrentDeviations(scores, lag), PreviousDeviations(scores, lag);
    DotNonNegative(x);
    DotNonNegative(y);
    ProductNonNegative(Dot(x, x), Dot(y, y));
  }

  lemma ClampedQuotient(x: real, d: real, dd: real)
    requires d > 0.0 && dd == d * d && x * x <= dd
    ensures Clamp(-1.0, 1.0, x / d) == x / d && (x / d) * d == x
  {
    SquareOrder(x, d, x * x, dd);
    QuotientInUnit(x, d);
  }

  /** Cauchy-Schwarz for one lag. */
  lemma CovariationBound(scores: seq<real>, lag: nat, dot: real, product: real)
    requires lag < |scores| && dot == Covariation(scores, lag) && product == VariationProduct(scores, lag)
    ensures dot * dot <= product
  {
    hide Dot, CurrentDeviations, PreviousDeviations;
    CauchySchwarz(CurrentDeviations(scores, lag), PreviousDeviations(scores, lag), dot, product);
  }

  /**
   The clamp never acts: by Cauchy-Schwarz the quotient is already a correlation, so multiplying
   the result by the root gives back the covariation.
   */
  lemma LagClampIsNoOp(sqrt: real -> real, scores: seq<real>, lag: nat)
    requires IsSquareRoot(sqrt) && 0 < lag
    ensures
      var rho := LagAutocorrelation(sqrt, scores, lag);
      rho.Some? ==>
        && lag < |scores|
        && sqrt(VariationProduct(scores, lag)) > 0.0
        && rho.value * sqrt(VariationProduct(scores, lag)) == Covariation(scores, lag)
  {
    if LagAutocorrelation(sqrt, scores, lag).Some? {
      VariationNonNegative(scores, lag);
      hide VariationProduct, Covariation, Clamp;
      var dot, product := Covariation(scores, lag), VariationProduct(scores, lag);
      CovariationBound(scores, lag, dot, product);
      ClampedQuotient(dot, sqrt(product), product);
    }
  }

  ghost predicate Constant(s: seq<real>) {
    forall i, j :: 0 <= i < j < |s| ==> s[i] == s[j]
  }

  lemma {:induction false} ZeroSquaresZeros(d: seq<real>)
    ensures Dot(d, d) == 0.0 <==> forall i :: 0 <= i < |d| ==> d[i] == 0.0
  {
    if d != [] {
      var n := |d| - 1;
      ZeroSquaresZeros(d[..n]);
      DotNonNegative(d[..n]);
      var square := d[n] * d[n];
      SquareSign(d[n], square);
      assert Dot(d, d) == Dot(d[..n], d[..n]) + square;
      assert d == d[..n] + [d[n]];
      if d[n] == 0.0 {
        TimesZero(d[n], d[n], square);
      }
    }
  }

  lemma TimesZero(x: real, y: real, z: real)
    requires y == 0.0 && z == x * y
    ensures z == 0.0
  {}

  lemma {:induction false} ZeroDeviations(s: seq<real>)
    ensures Dot(Deviations(s), Deviations(s)) == 0.0 <==> Constant(s)
  {
    ZeroSquaresZeros(Deviations(s));
    if s != [] {
      var d := Deviations(s);
      if Constant(s) {
        MeanBounds(s, s[0], s[0]);
        assert forall i :: 0 <= i < |d| ==> d[i] == 0.0;
      }
      if forall i :: 0 <= i < |d| ==> d[i] == 0.0 {
        assert forall i :: 0 <= i < |s| ==> d[i] == s[i] - Mean(s);
      }
    }
  }

  lemma RootIsZero(sqrt: real -> real, x: real)
    requires IsSquareRoot(sqrt) && x >= 0.0
    ensures sqrt(x) == 0.0 <==> x == 0.0
  {
    SquareSign(sqrt(x), x);
    if sqrt(x) == 0.0 {
      TimesZero(sqrt(x), sqrt(x), x);
    }
  }

  /** The autocorrelation is undefined exactly when a segment is missing or constant. */
  lemma UndefinedIffConstant(sqrt: real -> real, scores: seq<real>, lag: nat)
    requires IsSquareRoot(sqrt) && lag > 0
    ensures LagAutocorrelation(sqrt, scores, lag) == None <==>
      |scores| <= lag || Constant(scores[lag..]) || Constant(scores[..|scores| - lag])
  {
    hide Dot, Deviations, Constant, Clamp, Covariation, IsSquareRoot;
    if |scores| > lag {
      var x, y := CurrentDeviations(scores, lag), PreviousDeviations(scores, lag);
      DotNonNegative(x);
      DotNonNegative(y);
      ZeroDeviations(scores[lag..]);
      ZeroDeviations(scores[..|scores| - lag]);
      var product := VariationProduct(scores, lag);
      VariationNonNegative(scores, lag);
      RootIsZero(sqrt, product);
      ZeroProduct(Dot(x, x), Dot(y, y), product);
    }
  }

  lemma ZeroProduct(x: real, y: real, z: real)
    requires x >= 0.0 && y >= 0.0 && z == x * y
    ensures z == 0.0 <==> x == 0.0 || y == 0.0
  {
    if x > 0.0 && y > 0.0 {
      PositiveProduct(x, y, z);
    } else if y == 0.0 {
      TimesZero(x, y, z);
    } else {
      TimesZero(y, x, z);
    }
  }

  /** Every defined autocorrelation lies in [-1, 1]. */
  lemma LagInUnit(sqrt: real -> real, scores: seq<real>, lag: nat)
    requires IsSquareRoot(sqrt) && lag > 0
    ensures var rho := LagAutocorrelation(sqrt, scores, lag); rho.Some? ==> -1.0 <= rho.value <= 1.0
  {}

  /** `compute_effective_sample_size`: the lag-1 estimate. */
  function Lag1Ess(n: nat, rho: Option<real>): Option<real> {
    if n == 0 then None
    else if rho == None || rho.value <= 0.0 then Some(n as real)
    else if rho.value >= 1.0 then Some(0.0)
    else Some(Clamp(0.0, n as real, n as real * (1.0 - rho.value) / (1.0 + rho.value)))
  }

  lemma RatioBounds(n: real, a: real, b: real)
    requires n >= 0.0 && 0.0 <= a <= b && b > 0.0
    ensures 0.0 <= n * a / b <= n && (n * a / b) * b == n * a
  {
    var p, q := n * a, n * b;
    var r := p / b;
    assert r * b == p;
    ProductNonNegative(n, a);
    ProductNonNegative(n, b - a);
    assert n * (b - a) == q - p;
    CancelFactor(0.0, r, b, 0.0, p);
    CancelFactor(r, n, b, p, q);
  }

  /** The lag-1 estimate is the plain formula (the clamp never acts), between 0 and `n`. */
  lemma Lag1EssBounds(n: nat, rho: Option<real>)
    requires n > 0
    ensures Lag1Ess(n, rho).Some? && 0.0 <= Lag1Ess(n, rho).value <= n as real
    ensures rho.Some? && 0.0 <= rho.value <= 1.0 ==>
      Lag1Ess(n, rho).value * (1.0 + rho.value) == n as real * (1.0 - rho.value)
    ensures rho == None || rho.value < 0.0 ==> Lag1Ess(n, rho).value == n as real
    ensures rho.Some? && rho.value > 1.0 ==> Lag1Ess(n, rho).value == 0.0
  {
    if rho.Some? && 0.0 < rho.value < 1.0 {
      RatioBounds(n as real, 1.0 - rho.value, 1.0 + rho.value);
    }
  }

  /** Sum of the autocorrelations from `lag` on, up to the first that is undefined or not positive. */
  function InitialPositiveSum(sqrt: real -> real, scores: seq<real>, lag: nat, limit: nat): real
    requires lag > 0
    decreases limit - lag
  {
    if lag > limit then 0.0
    else
      var rho := LagAutocorrelation(sqrt, scores, lag);
      if rho == None || rho.value <= 0.0 then 0.0
      else rho.value + InitialPositiveSum(sqrt, scores, lag + 1, limit)
  }

  function LagLimit(n: nat): nat {
    if n / 2 < MAX_LAG then n / 2 else MAX_LAG
  }

  /** A sample of `n` shared out over `1 + 2 * sum` correlated draws. */
  function SharedEss(n: real, sum: real): real {
    var denominator := 1.0 + 2.0 * sum;
    if denominator <= 0.0 then n else Clamp(0.0, n, n / denominator)
  }

  /** The initial-positive-lag estimate, as a formula. */
  function AcfEss(sqrt: real -> real, scores: seq<real>): Option<real> {
    if scores == [] then None
    else Some(SharedEss(|scores| as real, InitialPositiveSum(sqrt, scores, 1, LagLimit(|scores|))))
  }

  lemma {:induction false} PositiveSumBounds(sqrt: real -> real, scores: seq<real>, lag: nat, limit: nat)
    requires IsSquareRoot(sqrt) && 0 < lag <= limit + 1
    ensures 0.0 <= InitialPositiveSum(sqrt, scores, lag, limit) <= (limit + 1 - lag) as real
    decreases limit - lag
  {
    if lag <= limit {
      LagInUnit(sqrt, scores, lag);
      PositiveSumBounds(sqrt, scores, lag + 1, limit);
    }
  }

  lemma SharedEssBounds(n: real, sum: real)
    requires n >= 0.0 && 0.0 <= sum <= 10.0
    ensures SharedEss(n, sum) * (1.0 + 2.0 * sum) == n
    ensures n / 21.0 <= SharedEss(n, sum) <= n
  {
    var d := 1.0 + 2.0 * sum;
    var e := n / d;
    assert e * d == n;
    var nd, ed := n * d, e * 21.0;
    ProductNonNegative(n, d - 1.0);
    assert n * (d - 1.0) == nd - n;
    CancelFactor(e, n, d, n, nd);
    CancelFactor(0.0, e, d, 0.0, n);
    ProductNonNegative(e, 21.0 - d);
    assert e * (21.0 - d) == ed - n;
  }

  /** Neither guard of the estimate acts, and ten lags cannot divide `n` by more than 21. */
  lemma AcfEssBounds(sqrt: real -> real, scores: seq<real>)
    requires IsSquareRoot(sqrt) && scores != []
    ensures
      var n, ess := |scores| as real, AcfEss(sqrt, scores);
      && ess.Some?
      && ess.value * (1.0 + 2.0 * InitialPositiveSum(sqrt, scores, 1, LagLimit(|scores|))) == n
      && n / 21.0 <= ess.value <= n
  {
    hide SharedEss, InitialPositiveSum;
    PositiveSumBounds(sqrt, scores, 1, LagLimit(|scores|));
    SharedEssBounds(|scores| as real, InitialPositiveSum(sqrt, scores, 1, LagLimit(|scores|)));
  }

  predicate PositiveAt(sqrt: real -> real, scores: seq<real>, lag: nat)
    requires lag > 0
  {
    var rho := LagAutocorrelation(sqrt, scores, lag);
    rho.Some? && rho.value > 0.0
  }

  /** The autocorrelations at lags 1 to `m`. */
  function Correlations(sqrt: real -> real, scores: seq<real>, m: nat): (s: seq<real>)
    requires forall k :: 1 <= k <= m ==> PositiveAt(sqrt, scores, k)
    ensures |s| == m
  {
    seq(m, i requires 0 <= i < m =>
      assert PositiveAt(sqrt, scores, i + 1);
      LagAutocorrelation(sqrt, scores, i + 1).value)
  }

  lemma NextCorrelation(sqrt: real -> real, scores: seq<real>, m: nat, limit: nat)
    requires m < limit && forall k :: 1 <= k <= m + 1 ==> PositiveAt(sqrt, scores, k)
    ensures Sum(Correlations(sqrt, scores, m + 1)) + InitialPositiveSum(sqrt, scores, m + 2, limit)
      == Sum(Correlations(sqrt, scores, m)) + InitialPositiveSum(sqrt, scores, m + 1, limit)
  {
    assert PositiveAt(sqrt, scores, m + 1);
    var rho := LagAutocorrelation(sqrt, scores, m + 1).value;
    hide LagAutocorrelation;
    assert Correlations(sqrt, scores, m + 1) == Correlations(sqrt, scores, m) + [rho];
    SumSnoc(Correlations(sqrt, scores, m), rho);
  }

  /** The sum runs over the longest run of positive autocorrelations from lag 1 on, up to the limit. */
  lemma PositiveRun(sqrt: real -> real, scores: seq<real>, limit: nat) returns (m: nat)
    ensures m <= limit && forall k :: 1 <= k <= m ==> PositiveAt(sqrt, scores, k)
    ensures m < limit ==> !PositiveAt(sqrt, scores, m + 1)
    ensures InitialPositiveSum(sqrt, scores, 1, limit) == Sum(Correlations(sqrt, scores, m))
  {
    m := 0;
    hide PositiveAt, Correlations, InitialPositiveSum, Sum;
    NoCorrelations(sqrt, scores);
    while m < limit && PositiveAt(sqrt, scores, m + 1)
      invariant m <= limit && forall k :: 1 <= k <= m ==> PositiveAt(sqrt, scores, k)
      invariant Sum(Correlations(sqrt, scores, m)) + InitialPositiveSum(sqrt, scores, m + 1, limit)
        == InitialPositiveSum(sqrt, scores, 1, limit)
    {
      NextCorrelation(sqrt, scores, m, limit);
      m := m + 1;
    }
    SumStops(sqrt, scores, m + 1, limit);
  }

  lemma NoCorrelations(sqrt: real -> real, scores: seq<real>)
    ensures Sum(Correlations(sqrt, scores, 0)) == 0.0
  {}

  lemma SumStops(sqrt: real -> real, scores: seq<real>, k: nat, limit: nat)
    requires k > 0 && (k > limit || !PositiveAt(sqrt, scores, k))
    ensures InitialPositiveSum(sqrt, scores, k, limit) == 0.0
  {}

  /** The estimate shares the sample over one plus twice the sum of that run, which ends at lag 10 and at half the sample. */
  lemma AcfEssMeans(sqrt: real -> real, scores: seq<real>) returns (m: nat)
    requires IsSquareRoot(sqrt) && scores != []
    ensures m <= 10 && m <= |scores| / 2 && forall k :: 1 <= k <= m ==> PositiveAt(sqrt, scores, k)
    ensures m < 10 && m < |scores| / 2 ==> !PositiveAt(sqrt, scores, m + 1)
    ensures AcfEss(sqrt, scores).Some?
    ensures AcfEss(sqrt, scores).value * (1.0 + 2.0 * Sum(Correlations(sqrt, scores, m))) == |scores| as real
  {
    hide AcfEss, PositiveAt, Correlations, InitialPositiveSum, Sum;
    AcfEssBounds(sqrt, scores);
    m := PositiveRun(sqrt, scores, LagLimit(|scores|));
  }

  /** `compute_acf_effective_sample_size`: accumulate until the first non-positive lag. */
  method AcfEffectiveSampleSize(sqrt: real -> real, scores: seq<real>) returns (ess: Option<real>)
    ensures ess == AcfEss(sqrt, scores)
  {
    var n := |scores|;
    if n == 0 {
      return None;
    }
    var limit := LagLimit(n);
    ghost var total := InitialPositiveSum(sqrt, scores, 1, limit);
    var sumPos, lag := 0.0, 1;
    while lag <= limit
      invariant 1 <= lag <= limit + 1
      invariant sumPos + InitialPositiveSum(sqrt, scores, lag, limit) == total
    {
      var rho := LagAutocorrelation(sqrt, scores, lag);
      if rho == None || rho.value <= 0.0 {
        break;
      }
      sumPos := sumPos + rho.value;
      lag := lag + 1;
    }
    assert sumPos == total;
    return Some(SharedEss(n as real, sumPos));
  }

  function Lower(a: real, b: real): real {
    if b < a then b else a
  }

  /** `compute_summary_effective_sample_size`: the estimate, and whether it is preliminary. */
  function SummaryEss(sqrt: real -> real, scores: seq<real>): (Option<real>, bool) {
    var n := |scores|;
    if n == 0 then (None, true)
    else
      var lag1 := Lag1Ess(n, LagAutocorrelation(sqrt, scores, 1));
      if n < ACF_MIN_N then (lag1, true)
      else
        match (lag1, AcfEss(sqrt, scores))
        case (None, None) => (None, false)
        case (Some(a), None) => (Some(Clamp(0.0, n as real, a)), false)
        case (None, Some(b)) => (Some(Clamp(0.0, n as real, b)), false)
        case (Some(a), Some(b)) => (Some(Clamp(0.0, n as real, Lower(a, b))), false)
  }

  /** `diagnose_iid_assumption` with its default thresholds. */
  function Diagnose(sqrt: real -> real, scores: seq<real>): Diagnostics {
    if scores == [] then Diagnostics(0, None, None, true, false)
    else
      var rho := LagAutocorrelation(sqrt, scores, 1);
      var (ess, preliminary) := SummaryEss(sqrt, scores);
      Diagnostics(|scores|, rho, ess, preliminary, rho.Some? && rho.value > RHO_THRESHOLD)
  }

  /** What every consumer may rely on. */
  ghost predicate SoundDiagnostics(d: Diagnostics) {
    && (d.n > 0 <==> d.ess.Some?)
    && (d.ess.Some? ==> 0.0 <= d.ess.value <= d.n as real)
    && (d.lag1.Some? ==> -1.0 <= d.lag1.value <= 1.0)
    && (d.essPreliminary <==> d.n < ACF_MIN_N)
    && (d.autocorrelationDetected <==> d.lag1.Some? && d.lag1.value > RHO_THRESHOLD)
  }

  lemma DiagnosticsAreSound(sqrt: real -> real, scores: seq<real>)
    requires IsSquareRoot(sqrt)
    ensures SoundDiagnostics(Diagnose(sqrt, scores)) && Diagnose(sqrt, scores).n == |scores|
  {
    if scores != [] {
      LagInUnit(sqrt, scores, 1);
      Lag1EssBounds(|scores|, LagAutocorrelation(sqrt, scores, 1));
      AcfEssBounds(sqrt, scores);
    }
  }

  lemma ShrinkBound(n: real, rho: real, e: real)
    requires n >= 0.0 && e >= 0.0 && rho > RHO_THRESHOLD
    requires e * (1.0 + rho) == n * (1.0 - rho)
    ensures e * 13.0 <= n * 7.0
  {
    var er, nr := e * rho, n * rho;
    assert e + er == n - nr;
    ProductNonNegative(e, rho - 0.3);
    assert e * (rho - 0.3) == er - 0.3 * e;
    ProductNonNegative(n, rho - 0.3);
    assert n * (rho - 0.3) == nr - 0.3 * n;
  }

  /** Detected autocorrelation costs at least 6/13 of the sample. */
  lemma AutocorrelationShrinksEss(sqrt: real -> real, scores: seq<real>)
    requires IsSquareRoot(sqrt)
    requires Diagnose(sqrt, scores).autocorrelationDetected
    ensures Diagnose(sqrt, scores).ess.Some?
    ensures Diagnose(sqrt, scores).ess.value * 13.0 <= |scores| as real * 7.0
  {
    hide LagAutocorrelation, Lag1Ess, AcfEss, InitialPositiveSum;
    var rho := LagAutocorrelation(sqrt, scores, 1);
    var lag1, acf := Lag1Ess(|scores|, rho), AcfEss(sqrt, scores);
    LagInUnit(sqrt, scores, 1);
    assert lag1.Some? && 0.0 <= lag1.value <= |scores| as real && lag1.value * 13.0 <= |scores| as real * 7.0 by {
      Lag1EssBounds(|scores|, rho);
      ShrinkBound(|scores| as real, rho.value, lag1.value);
    }
    assert acf.Some? && 0.0 <= acf.value <= |scores| as real by {
      AcfEssBounds(sqrt, scores);
    }
  }
}
