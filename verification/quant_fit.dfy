/** The two-parameter fit (make_qkx2_quants and make_qkx3_quants in CGGML/ggml-quants.c) over exact reals: codes, a
    scale and a minimum that is not positive. */
module QuantFit {
  import opened QuantSums

  /** What a call is given; weights default to squares in make_qkx3_quants. */
  datatype Problem = Problem(xs: seq<real>, ws: seq<real>, nmax: nat, rmin: real, rdelta: real, useMad: bool,
                             round: real -> int)

  ghost predicate Valid(p: Problem) {
    && |p.xs| == |p.ws| > 0 && p.nmax >= 1 && Rounding(p.round)
    && p.rmin + p.nmax as real >= 0.0 && p.rdelta >= 0.0
    && forall i :: 0 <= i < |p.ws| ==> p.ws[i] >= 0.0
  }

  // ---------------------------------------------------------------- the error of a line through the codes

  function Deviation(useMad: bool, d: real): real {
    if useMad then (if d < 0.0 then -d else d) else Square(d)
  }

  function Loss(useMad: bool, w: real, x: real, q: real, s: real, m: real): real {
    Times(w, Deviation(useMad, s * q + m - x))
  }

  /** Weighted error of the first n values. */
  function Error(useMad: bool, xs: seq<real>, ws: seq<real>, q: seq<real>, s: real, m: real, n: nat): real
    requires |xs| == |ws| == |q| && n <= |xs|
  {
    if n == 0 then 0.0 else Error(useMad, xs, ws, q, s, m, n - 1) + Loss(useMad, ws[n - 1], xs[n - 1], q[n - 1], s, m)
  }

  /** The squared error as a function of scale and minimum. */
  function Surface(w: real, x: real, l: real, l2: real, xl: real, xx: real, s: real, m: real): real {
    (s * s) * l2 + 2.0 * (s * m) * l + (m * m) * w - 2.0 * s * xl - 2.0 * m * x + xx
  }

  lemma SurfaceStep(w: real, x: real, l: real, l2: real, xl: real, xx: real, s: real, m: real,
                    dw: real, dx: real, dl: real, dl2: real, dxl: real, dxx: real)
    ensures Surface(w, x, l, l2, xl, xx, s, m) + Surface(dw, dx, dl, dl2, dxl, dxx, s, m)
              == Surface(w + dw, x + dx, l + dl, l2 + dl2, xl + dxl, xx + dxx, s, m)
  {
  }

  lemma SquareOfThree(a: real, b: real, c: real)
    ensures Square(a + b - c) == a * a + 2.0 * (a * b) + b * b - 2.0 * (a * c) - 2.0 * (b * c) + c * c
  {
  }

  lemma TermIsSurface(w: real, x: real, q: real, s: real, m: real)
    ensures Loss(false, w, x, q, s, m) == Surface(w, Times(w, x), Times(w, q), Times(w, Times(q, q)),
              Times(w, Times(q, x)), Times(w, Times(x, x)), s, m)
  {
    var a := s * q;
    SquareOfThree(a, m, x);
    assert a * a == (s * s) * (q * q);
    assert a * m == (s * m) * q;
    assert a * x == s * (q * x);
    var u, v, z := q * q, q * x, x * x;
    calc {
      w * ((s * s) * u + 2.0 * ((s * m) * q) + m * m - 2.0 * (s * v) - 2.0 * (m * x) + z);
      w * ((s * s) * u) + w * (2.0 * ((s * m) * q)) + w * (m * m) - w * (2.0 * (s * v)) - w * (2.0 * (m * x)) + w * z;
    }
    assert w * ((s * s) * u) == (s * s) * (w * u);
    assert w * (2.0 * ((s * m) * q)) == 2.0 * (s * m) * (w * q);
    assert w * (2.0 * (s * v)) == 2.0 * s * (w * v);
    assert w * (2.0 * (m * x)) == 2.0 * m * (w * x);
  }

  lemma {:induction false} ErrorIsSurface(xs: seq<real>, ws: seq<real>, q: seq<real>, s: real, m: real, n: nat)
    requires |xs| == |ws| == |q| && n <= |xs|
    ensures Error(false, xs, ws, q, s, m, n)
              == Surface(PrefixW(ws, n), PrefixWX(xs, ws, n), PrefixWX(q, ws, n), SumUV(ws, q, q, n),
                SumUV(ws, q, xs, n), SumUV(ws, xs, xs, n), s, m)
  {
    if n > 0 {
      hide Surface;
      hide Times;
      hide Loss;
      ErrorIsSurface(xs, ws, q, s, m, n - 1);
      var w, x, c := ws[n - 1], xs[n - 1], q[n - 1];
      TermIsSurface(w, x, c, s, m);
      SurfaceStep(PrefixW(ws, n - 1), PrefixWX(xs, ws, n - 1), PrefixWX(q, ws, n - 1), SumUV(ws, q, q, n - 1),
        SumUV(ws, q, xs, n - 1), SumUV(ws, xs, xs, n - 1), s, m,
                  w, Times(w, x), Times(w, c), Times(w, Times(c, c)), Times(w, Times(c, x)), Times(w, Times(x, x)));
    } else {
      assert Surface(0.0, 0.0, 0.0, 0.0, 0.0, 0.0, s, m) == 0.0;
    }
  }

  // ---------------------------------------------------------------- the best line for given codes

  datatype Line = Line(scale: real, min: real)

  function Det(w: real, l: real, l2: real): real {
    w * l2 - l * l
  }

  function Slope(w: real, x: real, l: real, l2: real, xl: real): real
    requires Det(w, l, l2) > 0.0
  {
    (w * xl - x * l) / Det(w, l, l2)
  }

  function Intercept(w: real, x: real, l: real, l2: real, xl: real): real
    requires Det(w, l, l2) > 0.0
  {
    (l2 * x - l * xl) / Det(w, l, l2)
  }

  /** The scale and minimum a try computes from its sums. */
  function FitLine(w: real, x: real, l: real, l2: real, xl: real): Line
    requires Det(w, l, l2) > 0.0 && w >= 0.0
  {
    DetPositive(w, l, l2);
    var min := Intercept(w, x, l, l2, xl);
    if min > 0.0 then Line(xl / l2, 0.0) else Line(Slope(w, x, l, l2, xl), min)
  }

  lemma DetPositive(w: real, l: real, l2: real)
    requires Det(w, l, l2) > 0.0 && w >= 0.0
    ensures w > 0.0 && l2 > 0.0
  {
    assert l * l >= 0.0;
    PositiveProduct(w, l2);
  }

  /** The normal equations. */
  lemma Normal(w: real, x: real, l: real, l2: real, xl: real, s: real, m: real)
    requires Det(w, l, l2) > 0.0
    requires s == Slope(w, x, l, l2, xl) && m == Intercept(w, x, l, l2, xl)
    ensures s * l2 + m * l == xl && s * l + m * w == x
  {
    var d := Det(w, l, l2);
    assert s * d == w * xl - x * l && m * d == l2 * x - l * xl;
    calc {
      (s * l2 + m * l) * d;
      (s * d) * l2 + (m * d) * l;
      (w * xl - x * l) * l2 + (l2 * x - l * xl) * l;
      xl * (w * l2 - l * l);
      xl * d;
    }
    Cancel(s * l2 + m * l, xl, d);
    calc {
      (s * l + m * w) * d;
      (s * d) * l + (m * d) * w;
      (w * xl - x * l) * l + (l2 * x - l * xl) * w;
      x * (w * l2 - l * l);
      x * d;
    }
    Cancel(s * l + m * w, x, d);
  }

  lemma Cancel(a: real, b: real, d: real)
    requires a * d == b * d && d > 0.0
    ensures a == b
  {
    assert (a - b) * d == 0.0;
  }

  /** Moving away from the solution of the normal equations adds a positive definite form. */
  lemma SurfaceAround(w: real, x: real, l: real, l2: real, xl: real, xx: real, s: real, m: real, a: real, b: real)
    requires s * l2 + m * l == xl && s * l + m * w == x
    ensures Surface(w, x, l, l2, xl, xx, s + a, m + b) - Surface(w, x, l, l2, xl, xx, s, m)
            == (a * a) * l2 + 2.0 * (a * b) * l + (b * b) * w
  {
    calc {
      Surface(w, x, l, l2, xl, xx, s + a, m + b) - Surface(w, x, l, l2, xl, xx, s, m);
      (a * a) * l2 + 2.0 * (a * b) * l + (b * b) * w + 2.0 * a * (s * l2 + m * l - xl) + 2.0 * b * (s * l + m * w - x);
    }
  }

  lemma FormPositive(w: real, l: real, l2: real, a: real, b: real)
    requires Det(w, l, l2) > 0.0 && w > 0.0
    ensures (a * a) * l2 + 2.0 * (a * b) * l + (b * b) * w >= 0.0
  {
    var f := (a * a) * l2 + 2.0 * (a * b) * l + (b * b) * w;
    var u, z := a * l + b * w, a * a;
    assert w * f == u * u + z * Det(w, l, l2) by { FormTimes(w, l, l2, a, b); }
    assert u * u >= 0.0 && z >= 0.0;
    assert z * Det(w, l, l2) >= 0.0;
    PositiveFactor(w, f);
  }

  lemma FormTimes(w: real, l: real, l2: real, a: real, b: real)
    ensures w * ((a * a) * l2 + 2.0 * (a * b) * l + (b * b) * w)
            == (a * l + b * w) * (a * l + b * w) + (a * a) * Det(w, l, l2)
  {
    calc {
      w * ((a * a) * l2 + 2.0 * (a * b) * l + (b * b) * w);
      (a * a) * (w * l2) + 2.0 * (a * l) * (b * w) + (b * w) * (b * w);
      (a * l) * (a * l) + 2.0 * (a * l) * (b * w) + (b * w) * (b * w) + (a * a) * (w * l2 - l * l);
    }
  }

  /** With the minimum clamped to zero, no scale and no negative minimum do better. */
  lemma ClampedIsLeast(w: real, x: real, l: real, l2: real, xl: real, xx: real, s: real, m: real)
    requires Det(w, l, l2) > 0.0 && l2 > 0.0 && l2 * x - l * xl > 0.0 && m <= 0.0
    ensures Surface(w, x, l, l2, xl, xx, xl / l2, 0.0) <= Surface(w, x, l, l2, xl, xx, s, m)
  {
    var t := xl / l2;
    assert t * l2 == xl;
    ClampedTimes(w, x, l, l2, xl, xx, s, m, t);
    ClampedPositive(l2 * s + m * l - xl, m, Det(w, l, l2), l2 * x - l * xl);
    hide Surface;
    hide Det;
    PositiveFactor(l2, Surface(w, x, l, l2, xl, xx, s, m) - Surface(w, x, l, l2, xl, xx, t, 0.0));
  }

  lemma ClampedPositive(u: real, m: real, d: real, g: real)
    requires m <= 0.0 && d > 0.0 && g > 0.0
    ensures u * u + ((m * m) * d - 2.0 * m * g) >= 0.0
  {
    assert u * u >= 0.0 && m * m >= 0.0;
    PositiveTimes(m * m, d);
    PositiveTimes(-m, g);
  }

  lemma ClampedValue(w: real, x: real, l: real, l2: real, xl: real, xx: real, t: real)
    requires t * l2 == xl
    ensures Surface(w, x, l, l2, xl, xx, t, 0.0) == xx - t * xl && l2 * (t * xl) == xl * xl
  {
    assert (t * t) * l2 == t * xl;
    assert l2 * (t * xl) == (t * l2) * xl;
  }

  lemma ClampedTimes(w: real, x: real, l: real, l2: real, xl: real, xx: real, s: real, m: real, t: real)
    requires t * l2 == xl
    ensures l2 * (Surface(w, x, l, l2, xl, xx, s, m) - Surface(w, x, l, l2, xl, xx, t, 0.0))
              == (l2 * s + m * l - xl) * (l2 * s + m * l - xl) + ((m * m) * Det(w, l, l2) - 2.0 * m * (l2 * x - l * xl))
  {
    var c := l2 * s;
    ClampedValue(w, x, l, l2, xl, xx, t);
    calc {
      l2 * (Surface(w, x, l, l2, xl, xx, s, m) - (xx - t * xl));
      l2 * ((s * s) * l2 + 2.0 * (s * m) * l + (m * m) * w - 2.0 * s * xl - 2.0 * m * x + t * xl);
      c * c + 2.0 * c * (m * l) + (m * m) * (w * l2) - 2.0 * c * xl - 2.0 * m * (l2 * x) + xl * xl;
      (c + m * l - xl) * (c + m * l - xl) + ((m * m) * (w * l2 - l * l) - 2.0 * m * (l2 * x - l * xl));
    }
  }

  /** No scale and no minimum that is not positive give the codes a smaller squared error. */
  lemma FitLineIsLeast(w: real, x: real, l: real, l2: real, xl: real, xx: real, s: real, m: real)
    requires Det(w, l, l2) > 0.0 && w >= 0.0 && m <= 0.0
    ensures var f := FitLine(w, x, l, l2, xl);
            f.min <= 0.0 && Surface(w, x, l, l2, xl, xx, f.scale, f.min) <= Surface(w, x, l, l2, xl, xx, s, m)
  {
    hide Surface;
    hide Det;
    DetPositive(w, l, l2);
    var s0, m0 := Slope(w, x, l, l2, xl), Intercept(w, x, l, l2, xl);
    if m0 > 0.0 {
      assert l2 * x - l * xl == m0 * Det(w, l, l2);
      ClampedIsLeast(w, x, l, l2, xl, xx, s, m);
    } else {
      Normal(w, x, l, l2, xl, s0, m0);
      UnclampedIsLeast(w, x, l, l2, xl, xx, s, m, s0, m0);
    }
  }

  lemma UnclampedIsLeast(w: real, x: real, l: real, l2: real, xl: real, xx: real, s: real, m: real, s0: real, m0: real)
    requires Det(w, l, l2) > 0.0 && w > 0.0 && s0 * l2 + m0 * l == xl && s0 * l + m0 * w == x
    ensures Surface(w, x, l, l2, xl, xx, s0, m0) <= Surface(w, x, l, l2, xl, xx, s, m)
  {
    hide Surface;
    hide Det;
    SurfaceAround(w, x, l, l2, xl, xx, s0, m0, s - s0, m - m0);
    FormPositive(w, l, l2, s - s0, m - m0);
    assert s0 + (s - s0) == s && m0 + (m - m0) == m;
  }

  // ---------------------------------------------------------------- the fitted minimum stays below the largest value

  /** A weighted sum of products (x0 - x)(c - q), multiplied out. */
  function Cross(w: real, x: real, l: real, xl: real, x0: real, c: real): real {
    Times(x0, Times(c, w)) - Times(x0, l) - Times(c, x) + xl
  }

  lemma CrossTerm(w: real, x: real, q: real, x0: real, c: real)
    requires w >= 0.0 && Times(x0 - x, c - q) >= 0.0
    ensures Cross(w, Times(w, x), Times(w, q), Times(w, Times(q, x)), x0, c) >= 0.0
  {
    calc {
      w * ((x0 - x) * (c - q));
      w * (x0 * c - x0 * q - x * c + x * q);
      x0 * (c * w) - x0 * (w * q) - c * (w * x) + w * (q * x);
    }
    PositiveTimes(w, (x0 - x) * (c - q));
  }

  lemma CrossStep(w: real, x: real, l: real, xl: real, dw: real, dx: real, dl: real, dxl: real, x0: real, c: real)
    ensures Cross(w, x, l, xl, x0, c) + Cross(dw, dx, dl, dxl, x0, c) == Cross(w + dw, x + dx, l + dl, xl + dxl, x0, c)
  {
  }

  lemma {:induction false} CrossSum(xs: seq<real>, ws: seq<real>, q: seq<real>, x0: real, c: real, n: nat)
    requires |xs| == |ws| == |q| && n <= |xs|
    requires forall i :: 0 <= i < n ==> ws[i] >= 0.0 && Times(x0 - xs[i], c - q[i]) >= 0.0
    ensures Cross(PrefixW(ws, n), PrefixWX(xs, ws, n), PrefixWX(q, ws, n), SumUV(ws, q, xs, n), x0, c) >= 0.0
  {
    if n > 0 {
      CrossSum(xs, ws, q, x0, c, n - 1);
      hide Cross;
      hide Times;
      CrossTerm(ws[n - 1], xs[n - 1], q[n - 1], x0, c);
      CrossStep(PrefixW(ws, n - 1), PrefixWX(xs, ws, n - 1), PrefixWX(q, ws, n - 1), SumUV(ws, q, xs, n - 1),
                ws[n - 1], Times(ws[n - 1], xs[n - 1]), Times(ws[n - 1], q[n - 1]),
                  Times(ws[n - 1], Times(q[n - 1], xs[n - 1])), x0, c);
    } else {
      assert Cross(0.0, 0.0, 0.0, 0.0, x0, c) == 0.0;
    }
  }

  ghost predicate Monotone(xs: seq<real>, q: seq<real>)
    requires |xs| == |q|
  {
    forall i, j :: 0 <= i < |xs| && 0 <= j < |xs| && xs[i] <= xs[j] ==> q[i] <= q[j]
  }

  lemma {:induction false} WeightNonnegative(ws: seq<real>, n: nat)
    requires n <= |ws| && forall i :: 0 <= i < |ws| ==> ws[i] >= 0.0
    ensures PrefixW(ws, n) >= 0.0
  {
    if n > 0 { WeightNonnegative(ws, n - 1); }
  }

  /** The largest code bounds the sum of squared codes. */
  lemma {:induction false} SquaresBounded(ws: seq<real>, q: seq<real>, top: real, n: nat)
    requires |ws| == |q| && n <= |q| && forall i :: 0 <= i < |q| ==> ws[i] >= 0.0 && 0.0 <= q[i] <= top
    ensures SumUV(ws, q, q, n) <= Times(top, PrefixWX(q, ws, n)) && PrefixWX(q, ws, n) >= 0.0
  {
    if n > 0 {
      SquaresBounded(ws, q, top, n - 1);
      SquareBounded(ws[n - 1], q[n - 1], top, PrefixWX(q, ws, n - 1));
    }
  }

  lemma SquareBounded(w: real, c: real, top: real, before: real)
    requires w >= 0.0 && 0.0 <= c <= top
    ensures Times(w, Times(c, c)) + Times(top, before) <= Times(top, before + Times(w, c)) && Times(w, c) >= 0.0
  {
    PositiveTimes(w, c);
    PositiveTimes(w * c, top - c);
    assert w * (c * c) == (w * c) * c;
  }

  /** Of the values whose code is below c, the largest. */
  lemma {:induction false} LargestBelow(xs: seq<real>, q: seq<real>, c: real, n: nat) returns (k: nat)
    requires |xs| == |q| && n <= |xs| && exists i :: 0 <= i < n && q[i] < c
    ensures k < n && q[k] < c && forall i :: 0 <= i < n && q[i] < c ==> xs[i] <= xs[k]
  {
    if exists i :: 0 <= i < n - 1 && q[i] < c {
      k := LargestBelow(xs, q, c, n - 1);
      if q[n - 1] < c && xs[n - 1] > xs[k] { k := n - 1; }
    } else {
      k := n - 1;
    }
  }

  /** Weights whose codes average below c have a code below c. */
  lemma {:induction false} SomeBelow(ws: seq<real>, q: seq<real>, c: real, n: nat)
    requires |ws| == |q| && n <= |q| && forall i :: 0 <= i < |q| ==> ws[i] >= 0.0
    requires Times(c, PrefixW(ws, n)) > PrefixWX(q, ws, n)
    ensures exists i :: 0 <= i < n && q[i] < c
  {
    if n > 0 {
      var w, b := ws[n - 1], q[n - 1];
      if b >= c {
        PositiveTimes(w, b - c);
        assert Times(c, PrefixW(ws, n)) == Times(c, PrefixW(ws, n - 1)) + w * c;
        SomeBelow(ws, q, c, n - 1);
      }
    }
  }

  lemma MeanOfSquares(w: real, l: real, l2: real, top: real) returns (c: real)
    requires Det(w, l, l2) > 0.0 && w >= 0.0 && l >= 0.0 && l2 <= Times(top, l)
    ensures l > 0.0 && Times(c, l) == l2 && c <= top && Times(c, w) > l && Times(l, Times(c, w) - l) == Det(w, l, l2)
  {
    DetPositive(w, l, l2);
    assert l == 0.0 ==> Times(top, l) == 0.0;
    c := l2 / l;
    assert c * l == l2;
    PositiveFactor(l, top - c);
    assert l * (c * w - l) == Det(w, l, l2);
    PositiveProduct(l, c * w - l);
  }

  /** The minimum solving the normal equations lies below the largest value when codes grow with the values. */
  lemma InterceptBelowLargest(xs: seq<real>, ws: seq<real>, q: seq<real>, k: nat)
    requires |xs| == |ws| == |q| && k < |xs| && Monotone(xs, q)
    requires forall i :: 0 <= i < |xs| ==> ws[i] >= 0.0 && q[i] >= 0.0 && xs[i] <= xs[k]
    requires Det(PrefixW(ws, |ws|), PrefixWX(q, ws, |ws|), SumUV(ws, q, q, |ws|)) > 0.0
    ensures Intercept(PrefixW(ws, |ws|), PrefixWX(xs, ws, |ws|), PrefixWX(q, ws, |ws|), SumUV(ws, q, q, |ws|),
            SumUV(ws, q, xs, |ws|)) < xs[k]
  {
    hide Det;
    hide Cross;
    hide Times;
    hide Intercept;
    var n := |ws|;
    var w, x, l, l2, xl := PrefixW(ws, n), PrefixWX(xs, ws, n), PrefixWX(q, ws, n), SumUV(ws, q, q, n),
      SumUV(ws, q, xs, n);
    WeightNonnegative(ws, n);
    SquaresBounded(ws, q, q[k], n);
    var c := MeanOfSquares(w, l, l2, q[k]);
    SomeBelow(ws, q, c, n);
    var j := LargestBelow(xs, q, c, n);
    forall i | 0 <= i < n ensures ws[i] >= 0.0 && Times(xs[j] - xs[i], c - q[i]) >= 0.0 {
      SameSide(xs[j] - xs[i], c - q[i]);
    }
    CrossSum(xs, ws, q, xs[j], c, n);
    CrossBoundsIntercept(w, x, l, l2, xl, xs[j], c);
  }

  lemma SameSide(a: real, b: real)
    requires (b > 0.0 ==> a >= 0.0) && (b <= 0.0 ==> a <= 0.0)
    ensures Times(a, b) >= 0.0
  {
  }

  lemma QuotientBound(a: real, d: real, b: real)
    requires d > 0.0 && a <= b * d
    ensures a / d <= b
  {
    var v := a / d;
    assert v * d == a;
    PositiveFactor(d, b - v);
  }

  lemma CrossBoundsIntercept(w: real, x: real, l: real, l2: real, xl: real, x0: real, c: real)
    requires Cross(w, x, l, xl, x0, c) >= 0.0 && l > 0.0 && Times(c, l) == l2 && Det(w, l, l2) > 0.0
    ensures Intercept(w, x, l, l2, xl) <= x0
  {
    PositiveTimes(l, Cross(w, x, l, xl, x0, c));
    calc {
      l * Cross(w, x, l, xl, x0, c);
      x0 * ((c * l) * w) - x0 * (l * l) - (c * l) * x + l * xl;
      x0 * (w * l2 - l * l) - (l2 * x - l * xl);
    }
    QuotientBound(l2 * x - l * xl, Det(w, l, l2), x0);
  }
}
