/** Weighted sums and least squares in one scale, shared by the quantiser searches of CGGML/ggml-quants.c. */
module QuantSums {
  /** nearest_int: any rounding to a nearest integer. */
  ghost predicate Rounding(round: real -> int) {
    forall v: real :: v - 0.5 <= round(v) as real <= v + 0.5
  }

  function Reals(codes: seq<int>): (q: seq<real>)
    ensures |q| == |codes| && forall i :: 0 <= i < |q| ==> q[i] == codes[i] as real
  {
    seq(|codes|, i requires 0 <= i < |codes| => codes[i] as real)
  }

  function Magnitude(x: real): (r: real)
    ensures r >= x && r >= -x && (r == x || r == -x)
  {
    if x < 0.0 then -x else x
  }

  /** A product, named so that sums of products can be handled without multiplying out. */
  function Times(x: real, y: real): real {
    x * y
  }

  function Square(d: real): real {
    d * d
  }

  /** Weighted sum of the first n values. */
  function PrefixWX(xs: seq<real>, ws: seq<real>, n: nat): real
    requires |xs| == |ws| && n <= |xs|
  {
    if n == 0 then 0.0 else PrefixWX(xs, ws, n - 1) + Times(ws[n - 1], xs[n - 1])
  }

  /** Sum of the first n weights. */
  function PrefixW(ws: seq<real>, n: nat): real
    requires n <= |ws|
  {
    if n == 0 then 0.0 else PrefixW(ws, n - 1) + ws[n - 1]
  }

  /** Weighted sum of products. */
  function SumUV(ws: seq<real>, us: seq<real>, vs: seq<real>, n: nat): real
    requires |us| == |vs| == |ws| && n <= |ws|
  {
    if n == 0 then 0.0 else SumUV(ws, us, vs, n - 1) + Times(ws[n - 1], Times(us[n - 1], vs[n - 1]))
  }

  /** The error as a function of the scale s, from the sums of squares, of cross products and of squared levels. */
  function Parabola(x: real, q: real, p: real, s: real): real {
    x - 2.0 * s * q + s * s * p
  }

  /** Weighted squared error of one value at level q and scale s. */
  function Term(x: real, w: real, q: real, s: real): real {
    w * Square(x - s * q)
  }

  lemma TermExpands(x: real, w: real, q: real, s: real)
    ensures Term(x, w, q, s) == Parabola(Times(w, Times(x, x)), Times(Times(w, x), q), Times(w, Times(q, q)), s)
  {
    var c := s * q;
    assert Square(x - c) == x * x - 2.0 * c * x + c * c;
    calc {
      w * (x * x - 2.0 * c * x + c * c);
      w * (x * x) - 2.0 * (w * (c * x)) + w * (c * c);
    }
    assert w * (c * x) == s * ((w * x) * q);
    assert w * (c * c) == s * s * (w * (q * q));
  }

  lemma ParabolaStep(x: real, q: real, p: real, s: real, dx: real, dq: real, dp: real)
    ensures Parabola(x, q, p, s) + Parabola(dx, dq, dp, s) == Parabola(x + dx, q + dq, p + dp, s)
  {
  }

  /** No scale beats Q/P. */
  lemma VertexIsLeast(x: real, q: real, p: real, s: real)
    requires p > 0.0
    ensures Parabola(x, q, p, s) >= x - (q / p) * q
    ensures Parabola(x, q, p, q / p) == x - (q / p) * q
  {
    var v := q / p;
    assert v * p == q;
    var d := s - v;
    assert d * d >= 0.0;
    SquareWeight(d, p);
    calc {
      x - 2.0 * s * q + s * s * p;
      x - 2.0 * (v + d) * (v * p) + (v + d) * (v + d) * p;
      x - v * (v * p) + (d * d) * p;
    }
  }

  lemma SquareWeight(d: real, p: real)
    requires p >= 0.0
    ensures (d * d) * p >= 0.0
  {
    var z := d * d;
    assert z >= 0.0;
  }

  lemma TermMonotone(w: real, u: real, v: real)
    requires w >= 0.0 && u <= v
    ensures w * u <= w * v && Times(w, u) <= Times(w, v)
  {
    assert w * (v - u) >= 0.0;
  }

  lemma PositiveProduct(k: real, f: real)
    requires k >= 0.0 && k * f > 0.0
    ensures k > 0.0 && f > 0.0
  {
  }

  lemma PositiveFactor(k: real, f: real)
    requires k > 0.0 && k * f >= 0.0
    ensures f >= 0.0
  {
  }

  lemma PositiveTimes(k: real, f: real)
    requires k >= 0.0 && f >= 0.0
    ensures k * f >= 0.0
  {
  }

  lemma RoundMonotone(round: real -> int, u: real, v: real)
    requires Rounding(round) && u <= v
    ensures round(u) <= round(v)
  {
    assert v - 0.5 <= round(v) as real && round(u) as real <= u + 0.5;
  }

  lemma QuotientPositive(a: real, b: real)
    requires a >= 0.0 && b > 0.0
    ensures a / b >= 0.0 && (a > 0.0 ==> a / b > 0.0)
  {
    var v := a / b;
    assert v * b == a;
  }
}
