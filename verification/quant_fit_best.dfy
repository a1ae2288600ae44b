/** What the codes of the two-parameter fit have to do with the values, and what follows for the error that is kept. */
module QuantFitBest {
  import opened QuantSums
  import opened QuantFit
  import opened QuantFitRun

  // ---------------------------------------------------------------- codes are nearest

  /** l is a nearest code to v: within one half where v lies between the codes, the outermost code beyond them. */
  ghost predicate Nearest(l: nat, v: real, nmax: nat) {
    && (v <= 0.0 ==> l == 0)
    && (v >= nmax as real ==> l == nmax)
    && (0.0 <= v <= nmax as real ==> l <= nmax && v - 0.5 <= l as real <= v + 0.5)
  }

  /** Every code is a nearest one to its scaled distance from the minimum, for any scale and minimum. */
  lemma CodesAreNearest(p: Problem, iscale: real, min: real, i: nat)
    requires Rounding(p.round) && i < |p.xs|
    ensures Nearest(Codes(p, iscale, min)[i], Times(iscale, p.xs[i] - min), p.nmax)
  {
    var v := Times(iscale, p.xs[i] - min);
    assert v - 0.5 <= p.round(v) as real <= v + 0.5;
  }

  /** Codes per unit of the plain quantisation: all nmax of them from the minimum to the largest value. */
  function PlainScale(p: Problem): real
    requires Spread(p)
  {
    p.nmax as real / (Max(p) - Min(p))
  }

  /** Codes per unit of try k: rmin + rdelta * k more of them from the minimum kept so far. */
  function TryScale(p: Problem, min: real, k: nat): real
    requires |p.xs| > 0 && Max(p) > min
  {
    (p.rmin + p.rdelta * k as real + p.nmax as real) / (Max(p) - min)
  }

  lemma PlainIs(p: Problem)
    requires Spread(p)
    ensures PlainScale(p) > 0.0 && Run(p, 0).codes == Codes(p, PlainScale(p), Min(p))
    ensures Run(p, 0).scale == 1.0 / PlainScale(p) && Run(p, 0).min == Min(p)
  {
    hide Codes;
    hide Max;
    hide Min;
    QuotientAbove(p.nmax as real, Max(p) - Min(p));
  }

  lemma TryIs(p: Problem, min: real, k: nat)
    requires |p.xs| > 0 && Max(p) > min
    ensures TryCodes(p, min, k) == Codes(p, TryScale(p, min, k), min)
  {
    hide Codes;
    hide Max;
  }

  /** The codes of the plain quantisation. */
  lemma PlainCodesAreNearest(p: Problem, i: nat)
    requires Spread(p) && i < |p.xs|
    ensures |Run(p, 0).codes| == |p.xs| && Nearest(Run(p, 0).codes[i], Times(PlainScale(p), p.xs[i] - Min(p)), p.nmax)
  {
    hide Run;
    hide PlainScale;
    hide Min;
    hide Nearest;
    hide Times;
    PlainIs(p);
    CodesAreNearest(p, PlainScale(p), Min(p), i);
  }

  /** The codes of try k. */
  lemma TryCodesAreNearest(p: Problem, min: real, k: nat, i: nat)
    requires Rounding(p.round) && |p.xs| > 0 && Max(p) > min && i < |p.xs|
    ensures Nearest(TryCodes(p, min, k)[i], Times(TryScale(p, min, k), p.xs[i] - min), p.nmax)
  {
    hide TryCodes;
    hide TryScale;
    hide Max;
    hide Nearest;
    hide Times;
    TryIs(p, min, k);
    CodesAreNearest(p, TryScale(p, min, k), min, i);
  }

  // ---------------------------------------------------------------- the error of the plain quantisation

  /** Half the distance between neighbouring levels of the plain quantisation. */
  function HalfStep(p: Problem): real
    requires |p.xs| > 0 && p.nmax > 0
  {
    (Max(p) - Min(p)) / (2 * p.nmax) as real
  }

  lemma ValuesBetween(p: Problem, i: nat)
    requires |p.xs| > 0 && i < |p.xs|
    ensures Min(p) <= p.xs[i] <= Max(p)
  {
    var k := LargestMeaning(p.xs, |p.xs|);
    var j := SmallestMeaning(p.xs, |p.xs|);
  }

  lemma ScaledBack(range: real, nmax: real, d: real, l: real, h: real)
    requires range > 0.0 && nmax > 0.0 && 0.0 <= d <= range && h == range / (2.0 * nmax)
    requires (nmax / range) * d - 0.5 <= l <= (nmax / range) * d + 0.5
    ensures -h <= (1.0 / (nmax / range)) * l - d <= h
  {
    var iscale := nmax / range;
    var scale := 1.0 / iscale;
    assert iscale * range == nmax;
    QuotientAbove(nmax, range);
    assert scale * iscale == 1.0;
    HalfOfScale(scale, iscale, range, nmax, h);
    var v := iscale * d;
    assert scale * v == (scale * iscale) * d == d;
    TermMonotone(scale, l - v, 0.5);
    TermMonotone(scale, -0.5, l - v);
    assert scale * (l - v) == scale * l - d;
  }

  lemma QuotientAbove(a: real, b: real)
    requires a > 0.0 && b > 0.0
    ensures a / b > 0.0 && 1.0 / (a / b) > 0.0
  {
    assert (a / b) * b == a;
  }

  lemma HalfOfScale(scale: real, iscale: real, range: real, nmax: real, h: real)
    requires nmax > 0.0 && scale * iscale == 1.0 && iscale * range == nmax && h == range / (2.0 * nmax)
    ensures h == scale * 0.5
  {
    assert scale * nmax == (scale * iscale) * range == range;
    assert h * (2.0 * nmax) == range;
    assert (h - scale * 0.5) * (2.0 * nmax) == 0.0;
  }

  /** The plain quantisation reproduces every value within half a step. */
  lemma PlainWithinHalfStep(p: Problem, i: nat)
    requires Spread(p) && i < |p.xs|
    ensures |Run(p, 0).codes| == |p.xs| && Run(p, 0).min == Min(p)
    ensures -HalfStep(p) <= Run(p, 0).scale * Run(p, 0).codes[i] as real + Min(p) - p.xs[i] <= HalfStep(p)
  {
    hide Run;
    hide Max;
    hide Min;
    hide Times;
    ValuesBetween(p, i);
    PlainCodesAreNearest(p, i);
    PlainIs(p);
    TimesIs(PlainScale(p), p.xs[i] - Min(p));
    LevelWithin(Max(p) - Min(p), p.nmax, p.xs[i] - Min(p), Run(p, 0).codes[i], HalfStep(p));
  }

  lemma TimesIs(a: real, b: real)
    ensures Times(a, b) == a * b
  {
  }

  lemma LevelWithin(range: real, nmax: nat, d: real, l: nat, h: real)
    requires range > 0.0 && nmax > 0 && 0.0 <= d <= range && h == range / (2 * nmax) as real
    requires Nearest(l, (nmax as real / range) * d, nmax)
    ensures -h <= (1.0 / (nmax as real / range)) * l as real - d <= h
  {
    ScaledWithin(range, nmax as real, d);
    ScaledBack(range, nmax as real, d, l as real, h);
  }

  lemma ScaledWithin(range: real, nmax: real, d: real)
    requires range > 0.0 && nmax > 0.0 && 0.0 <= d <= range
    ensures 0.0 <= (nmax / range) * d <= nmax
  {
    assert (nmax / range) * range == nmax;
    QuotientAbove(nmax, range);
    TermMonotone(nmax / range, 0.0, d);
    TermMonotone(nmax / range, d, range);
  }

  lemma SquareWithin(w: real, d: real, h: real)
    requires w >= 0.0 && -h <= d <= h
    ensures Times(w, Square(d)) <= Times(w, Square(h))
  {
    PositiveTimes(h - d, h + d);
    assert Square(h) - Square(d) == (h - d) * (h + d);
    TermMonotone(w, Square(d), Square(h));
  }

  lemma {:induction false} ErrorWithin(p: Problem, codes: seq<nat>, s: real, m: real, h: real, n: nat)
    requires Valid(p) && |codes| == |p.xs| && n <= |codes|
    requires forall i :: 0 <= i < n ==> -h <= s * codes[i] as real + m - p.xs[i] <= h
    ensures Error(false, p.xs, p.ws, Reals(codes), s, m, n) <= Times(PrefixW(p.ws, n), Square(h))
  {
    if n > 0 {
      ErrorWithin(p, codes, s, m, h, n - 1);
      SquareWithin(p.ws[n - 1], s * codes[n - 1] as real + m - p.xs[n - 1], h);
      assert Times(PrefixW(p.ws, n), Square(h)) == Times(PrefixW(p.ws, n - 1), Square(h)) + Times(p.ws[n - 1],
               Square(h));
    }
  }

  /** However many tries there are, the squared error that is kept is at most that of missing every value by half a
      step. */
  lemma KeptWithinHalfStep(p: Problem, n: nat)
    requires Spread(p) && !p.useMad
    ensures Run(p, n).error <= Times(PrefixW(p.ws, |p.ws|), Square(HalfStep(p)))
  {
    hide Times;
    hide Run;
    RunImproves(p, 0, n);
    KeptError(p, 0);
    forall i | 0 <= i < |p.xs|
      ensures -HalfStep(p) <= Run(p, 0).scale * Run(p, 0).codes[i] as real + Min(p) - p.xs[i] <= HalfStep(p)
    {
      PlainWithinHalfStep(p, i);
    }
    PlainIs(p);
    ErrorWithin(p, Run(p, 0).codes, Run(p, 0).scale, Min(p), HalfStep(p), |p.xs|);
  }

  // ---------------------------------------------------------------- which tries count

  /** Weighted squares of the distances of the first n codes from q. */
  function Distances(ws: seq<real>, qs: seq<real>, q: real, n: nat): real
    requires |ws| == |qs| && n <= |ws|
  {
    if n == 0 then 0.0 else Distances(ws, qs, q, n - 1) + Times(ws[n - 1], Square(q - qs[n - 1]))
  }

  function Quadratic(q: real, w: real, l: real, l2: real): real {
    q * q * w - 2.0 * q * l + l2
  }

  lemma {:induction false} DistancesExpand(ws: seq<real>, qs: seq<real>, q: real, n: nat)
    requires |ws| == |qs| && n <= |ws|
    ensures Distances(ws, qs, q, n) == Quadratic(q, PrefixW(ws, n), PrefixWX(qs, ws, n), SumUV(ws, qs, qs, n))
  {
    if n == 0 {
      assert Quadratic(q, 0.0, 0.0, 0.0) == 0.0;
    } else {
      DistancesExpand(ws, qs, q, n - 1);
      hide Times;
      hide Square;
      hide Quadratic;
      DistanceExpands(PrefixW(ws, n - 1), PrefixWX(qs, ws, n - 1), SumUV(ws, qs, qs, n - 1), ws[n - 1], q, qs[n - 1]);
    }
  }

  lemma WeightedSquare(v: real, q: real, c: real)
    ensures Times(v, Square(q - c)) == v * (q * q) - 2.0 * (v * (q * c)) + Times(v, Times(c, c))
  {
    assert Square(q - c) == q * q - 2.0 * (q * c) + c * c;
    WeightedSum(v, q * q, q * c, c * c);
  }

  lemma WeightedSum(v: real, a: real, b: real, c: real)
    ensures v * (a - 2.0 * b + c) == v * a - 2.0 * (v * b) + v * c
  {
  }

  lemma DistanceExpands(w: real, l: real, l2: real, v: real, q: real, c: real)
    ensures Quadratic(q, w, l, l2) + Times(v, Square(q - c))
              == Quadratic(q, w + v, l + Times(v, c), l2 + Times(v, Times(c, c)))
  {
    WeightedSquare(v, q, c);
    assert q * q * (w + v) == q * q * w + v * (q * q);
    assert 2.0 * q * (l + Times(v, c)) == 2.0 * q * l + 2.0 * (v * (q * c));
  }

  /** Two of the first n codes differ, and both have weight. */
  ghost predicate Differ(ws: seq<real>, qs: seq<real>, n: nat)
    requires |ws| == |qs| && n <= |ws|
  {
    exists i, j :: 0 <= i < j < n && ws[i] > 0.0 && ws[j] > 0.0 && qs[i] != qs[j]
  }

  /** A code with weight among the first n that differs from q. */
  ghost predicate DifferFrom(ws: seq<real>, qs: seq<real>, q: real, n: nat)
    requires |ws| == |qs| && n <= |ws|
  {
    exists i :: 0 <= i < n && ws[i] > 0.0 && qs[i] != q
  }

  lemma SquareSign(d: real)
    ensures Square(d) >= 0.0 && (Square(d) > 0.0 <==> d != 0.0)
  {
    if d > 0.0 {
      ProductSign(d, d);
    } else if d < 0.0 {
      ProductSign(-d, -d);
      assert Times(-d, -d) == Square(d);
    }
  }

  lemma SquareOfDifference(w: real, a: real, b: real)
    requires w >= 0.0
    ensures Times(w, Square(a - b)) >= 0.0
    ensures Times(w, Square(a - b)) > 0.0 <==> w > 0.0 && a != b
  {
    SquareSign(a - b);
    ProductSign(w, Square(a - b));
  }

  lemma {:induction false} DistancesPositive(ws: seq<real>, qs: seq<real>, q: real, n: nat)
    requires |ws| == |qs| && n <= |ws| && forall i :: 0 <= i < |ws| ==> ws[i] >= 0.0
    ensures Distances(ws, qs, q, n) >= 0.0
    ensures Distances(ws, qs, q, n) > 0.0 <==> DifferFrom(ws, qs, q, n)
  {
    if n > 0 {
      DistancesPositive(ws, qs, q, n - 1);
      SquareOfDifference(ws[n - 1], q, qs[n - 1]);
      if DifferFrom(ws, qs, q, n - 1) {
        var i :| 0 <= i < n - 1 && ws[i] > 0.0 && qs[i] != q;
        assert 0 <= i < n && ws[i] > 0.0 && qs[i] != q;
      }
      if ws[n - 1] > 0.0 && qs[n - 1] != q { assert DifferFrom(ws, qs, q, n); }
    }
  }

  /** The determinant of the first n codes. */
  function DetOf(ws: seq<real>, qs: seq<real>, n: nat): real
    requires |ws| == |qs| && n <= |ws|
  {
    Det(PrefixW(ws, n), PrefixWX(qs, ws, n), SumUV(ws, qs, qs, n))
  }

  lemma DetStep(ws: seq<real>, qs: seq<real>, n: nat)
    requires |ws| == |qs| && n < |ws|
    ensures DetOf(ws, qs, n + 1) == DetOf(ws, qs, n) + Times(ws[n], Distances(ws, qs, qs[n], n))
  {
    DistancesExpand(ws, qs, qs[n], n);
    DetAlgebra(PrefixW(ws, n), PrefixWX(qs, ws, n), SumUV(ws, qs, qs, n), ws[n], qs[n]);
  }

  lemma DetAlgebra(w: real, l: real, l2: real, v: real, q: real)
    ensures Det(w + v, l + Times(v, q), l2 + Times(v, Times(q, q)))
              == Det(w, l, l2) + Times(v, Quadratic(q, w, l, l2))
  {
    var a, b := v * q, v * (q * q);
    assert (w + v) * (l2 + b) == w * l2 + w * b + v * l2 + v * b;
    assert (l + a) * (l + a) == l * l + 2.0 * (l * a) + a * a;
    assert v * b == a * a;
    assert v * (q * q * w - 2.0 * q * l + l2) == v * (q * q * w) - v * (2.0 * q * l) + v * l2;
    assert v * (q * q * w) == w * b;
    assert v * (2.0 * q * l) == 2.0 * (l * a);
    assert Det(w + v, l + a, l2 + b) == (w + v) * (l2 + b) - (l + a) * (l + a);
  }

  lemma DifferNext(ws: seq<real>, qs: seq<real>, n: nat)
    requires |ws| == |qs| && n < |ws|
    ensures Differ(ws, qs, n + 1) <==> Differ(ws, qs, n) || (ws[n] > 0.0 && DifferFrom(ws, qs, qs[n], n))
  {
    if Differ(ws, qs, n) {
      var i, j :| 0 <= i < j < n && ws[i] > 0.0 && ws[j] > 0.0 && qs[i] != qs[j];
      assert 0 <= i < j < n + 1 && ws[i] > 0.0 && ws[j] > 0.0 && qs[i] != qs[j];
    }
    if ws[n] > 0.0 && DifferFrom(ws, qs, qs[n], n) {
      var i :| 0 <= i < n && ws[i] > 0.0 && qs[i] != qs[n];
      assert 0 <= i < n < n + 1 && ws[i] > 0.0 && ws[n] > 0.0 && qs[i] != qs[n];
    }
  }

  /** The determinant is positive exactly when two codes with weight differ. */
  lemma {:induction false} DetPositiveExactly(ws: seq<real>, qs: seq<real>, n: nat)
    requires |ws| == |qs| && n <= |ws| && forall i :: 0 <= i < |ws| ==> ws[i] >= 0.0
    ensures DetOf(ws, qs, n) >= 0.0
    ensures DetOf(ws, qs, n) > 0.0 <==> Differ(ws, qs, n)
  {
    if n > 0 {
      var k := n - 1;
      DetPositiveExactly(ws, qs, k);
      DetStep(ws, qs, k);
      DistancesPositive(ws, qs, qs[k], k);
      DifferNext(ws, qs, k);
      ProductSign(ws[k], Distances(ws, qs, qs[k], k));
    }
  }

  lemma ProductSign(a: real, b: real)
    requires a >= 0.0 && b >= 0.0
    ensures Times(a, b) >= 0.0 && (Times(a, b) > 0.0 <==> a > 0.0 && b > 0.0)
  {
    if a > 0.0 && b > 0.0 { assert a * b > 0.0; }
  }

  /** With squared errors, the result of n tries beats, for every try whose codes are not all the same where they have
      weight, every scale and every minimum that is not positive. */
  lemma BeatsEveryLine(p: Problem, j: nat, n: nat, s: real, m: real)
    requires Spread(p) && !p.useMad && j < n && m <= 0.0
    requires Differ(p.ws, Reals(TryCodes(p, Run(p, j).min, j)), |p.ws|)
    ensures Run(p, n).error <= SquaredErrorOf(p, TryCodes(p, Run(p, j).min, j), s, m)
  {
    hide TryCodes;
    hide Run;
    var codes := TryCodes(p, Run(p, j).min, j);
    DetPositiveExactly(p.ws, Reals(codes), |p.ws|);
    assert Determinant(p, codes) == DetOf(p.ws, Reals(codes), |p.ws|);
    BeatsEveryTry(p, j, n, s, m);
  }
}
