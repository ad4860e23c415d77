/** Sums, means and inner products of real sequences. */
module RealSeq {

  /** Left-to-right sum. */
  function Sum(s: seq<real>): real {
    if s == [] then 0.0 else Sum(s[..|s| - 1]) + s[|s| - 1]
  }

  function Mean(s: seq<real>): real
    requires s != []
  {
    Sum(s) / |s| as real
  }

  /** A product by name, so that proofs can keep it as one term. */
  function Times(x: real, y: real): real {
    x * y
  }

  /** Sum of the products of corresponding elements. */
  function Dot(a: seq<real>, b: seq<real>): real
    requires |a| == |b|
  {
    if a == [] then 0.0 else Dot(a[..|a| - 1], b[..|b| - 1]) + Times(a[|a| - 1], b[|b| - 1])
  }

  lemma SumSnoc(s: seq<real>, x: real)
    ensures Sum(s + [x]) == Sum(s) + x
  {
    assert (s + [x])[..|s|] == s;
  }

  lemma {:induction false} SumBounds(s: seq<real>, low: real, high: real)
    requires forall i :: 0 <= i < |s| ==> low <= s[i] <= high
    ensures low * |s| as real <= Sum(s) <= high * |s| as real
  {
    if s != [] {
      SumBounds(s[..|s| - 1], low, high);
    }
  }

  lemma CancelFactor(a: real, b: real, k: real, ak: real, bk: real)
    requires k > 0.0 && ak == a * k && bk == b * k && ak <= bk
    ensures a <= b
  {}

  lemma DivideBounds(x: real, low: real, high: real, n: nat)
    requires n > 0 && low * n as real <= x <= high * n as real
    ensures low <= x / n as real <= high
  {
    var m := x / n as real;
    assert m * n as real == x;
    CancelFactor(low, m, n as real, low * n as real, x);
    CancelFactor(m, high, n as real, x, high * n as real);
  }

  /** The mean lies between any bounds of the elements. */
  lemma MeanBounds(s: seq<real>, low: real, high: real)
    requires s != [] && forall i :: 0 <= i < |s| ==> low <= s[i] <= high
    ensures low <= Mean(s) <= high
  {
    SumBounds(s, low, high);
    DivideBounds(Sum(s), low, high, |s|);
  }

  lemma {:induction false} DotNonNegative(a: seq<real>)
    ensures Dot(a, a) >= 0.0
  {
    if a != [] {
      DotNonNegative(a[..|a| - 1]);
      assert a[|a| - 1] * a[|a| - 1] >= 0.0;
    }
  }

  lemma SquareOfDifference(x: real, y: real, t: real)
    ensures Quadratic(Times(x, x), Times(x, y), Times(y, y), t) >= 0.0
  {
    var d := x - t * y;
    assert d * d >= 0.0;
    assert d * d == x * x - 2.0 * t * (x * y) + t * t * (y * y);
  }

  /** The polynomial `p - 2 q t + r t^2`. */
  function Quadratic(p: real, q: real, r: real, t: real): real {
    p - 2.0 * t * q + t * t * r
  }

  lemma QuadraticAdds(p: real, q: real, r: real, p': real, q': real, r': real, t: real)
    ensures Quadratic(p + p', q + q', r + r', t) == Quadratic(p, q, r, t) + Quadratic(p', q', r', t)
  {
    var tt := t * t;
    assert tt * (r + r') == tt * r + tt * r';
  }

  /** `sum (x - t y)^2 >= 0`, expanded. */
  lemma {:induction false} QuadraticNonNegative(a: seq<real>, b: seq<real>, t: real)
    requires |a| == |b|
    ensures Quadratic(Dot(a, a), Dot(a, b), Dot(b, b), t) >= 0.0
  {
    if a != [] {
      hide Quadratic, Times;
      var n := |a| - 1;
      var x, y, front, back := a[n], b[n], a[..n], b[..n];
      QuadraticNonNegative(front, back, t);
      SquareOfDifference(x, y, t);
      QuadraticAdds(
        Dot(front, front), Dot(front, back), Dot(back, back), Times(x, x), Times(x, y), Times(y, y), t);
    }
  }

  lemma PositiveProduct(x: real, y: real, z: real)
    requires x > 0.0 && y > 0.0 && z == x * y
    ensures z > 0.0
  {}

  lemma ProductNonNegative(x: real, y: real)
    requires x >= 0.0 && y >= 0.0
    ensures x * y >= 0.0
  {}

  lemma SquareSign(x: real, z: real)
    requires z == x * x
    ensures z >= 0.0
    ensures x == 0.0 || z > 0.0
  {
    if x > 0.0 {
      PositiveProduct(x, x, z);
    } else if x < 0.0 {
      PositiveProduct(-x, -x, z);
    }
  }

  lemma {:induction false} ZeroSquaresZeroDot(a: seq<real>, b: seq<real>)
    requires |a| == |b| && Dot(b, b) == 0.0
    ensures Dot(a, b) == 0.0
  {
    if a != [] {
      var n := |a| - 1;
      DotNonNegative(b[..n]);
      var square := b[n] * b[n];
      SquareSign(b[n], square);
      assert Dot(b, b) == Dot(b[..n], b[..n]) + square;
      assert b[n] == 0.0;
      ZeroSquaresZeroDot(a[..n], b[..n]);
    }
  }

  lemma Discriminant(x: real, p: real, y: real)
    requires y > 0.0
    requires x - 2.0 * (p / y) * p + (p / y) * (p / y) * y >= 0.0
    ensures p * p <= x * y
  {
    var t := p / y;
    assert t * y == p;
    assert t * t * y == t * p;
    assert (x - t * p) * y >= 0.0;
    assert (x - t * p) * y == x * y - p * (t * y);
  }

  /** Cauchy-Schwarz. */
  lemma CauchySchwarz(a: seq<real>, b: seq<real>, dot: real, product: real)
    requires |a| == |b| && dot == Dot(a, b) && product == Dot(a, a) * Dot(b, b)
    ensures dot * dot <= product
  {
    hide Dot;
    DotNonNegative(b);
    if Dot(b, b) == 0.0 {
      ZeroSquaresZeroDot(a, b);
    } else {
      QuadraticNonNegative(a, b, Dot(a, b) / Dot(b, b));
      Discriminant(Dot(a, a), Dot(a, b), Dot(b, b));
    }
  }
}
