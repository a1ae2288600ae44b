/** What the codes of make_q3_quants and make_qp_quants have to do with the values, when the refinement stops, and what
    follows for the error. */
module QuantDescentBest {
  import opened QuantSums
  import opened QuantDescent
  import opened QuantDescentRun

  // ---------------------------------------------------------------- codes are nearest

  /** l is a nearest code to v: within one half where v lies between the codes lo and hi, the outermost code beyond
      them. */
  ghost predicate NearestIn(l: int, v: real, lo: int, hi: int) {
    && (v <= lo as real ==> l == lo)
    && (v >= hi as real ==> l == hi)
    && (lo as real <= v <= hi as real ==> lo <= l <= hi && v - 0.5 <= l as real <= v + 0.5)
  }

  lemma LimitedIsNearest(rule: Rule, round: real -> int, v: real)
    requires Rounding(round) && rule.nmax >= 1
    ensures rule.Signed? ==> NearestIn(rule.Limit(round(v)), v, 0 - rule.nmax, rule.nmax - 1)
    ensures rule.Upper? && v >= 0.0 ==> NearestIn(rule.Limit(round(v)), v, 0, rule.nmax)
  {
    assert v - 0.5 <= round(v) as real <= v + 0.5;
  }

  /** The plain codes of make_q3_quants, before nmax is added. */
  lemma SignedCodesAreNearest(p: Problem, iscale: real, i: nat)
    requires Valid(p) && p.rule.Signed? && i < |p.xs|
    ensures NearestIn(Codes(p, iscale)[i], Times(iscale, p.xs[i]), 0 - p.rule.nmax, p.rule.nmax - 1)
  {
    hide Times;
    LimitedIsNearest(p.rule, p.round, Times(iscale, p.xs[i]));
  }

  /** The plain codes of make_qp_quants. */
  lemma UpperCodesAreNearest(p: Problem, iscale: real, i: nat)
    requires Valid(p) && Storable(p) && p.rule.Upper? && iscale >= 0.0 && i < |p.xs|
    ensures NearestIn(Codes(p, iscale)[i], Times(iscale, p.xs[i]), 0, p.rule.nmax)
  {
    NonnegativeTimes(iscale, p.xs[i]);
    hide Times;
    LimitedIsNearest(p.rule, p.round, Times(iscale, p.xs[i]));
  }

  // ---------------------------------------------------------------- the largest values

  lemma {:induction false} PeakIsLargest(xs: seq<real>, n: nat, i: nat)
    requires i < n <= |xs|
    ensures Magnitude(xs[i]) <= Magnitude(Peak(xs, n))
  {
    if i < n - 1 { PeakIsLargest(xs, n - 1, i); }
  }

  /** Value k is the first of the largest magnitude among the first n. */
  ghost predicate FirstLargest(xs: seq<real>, n: nat, k: int)
    requires n <= |xs|
  {
    0 <= k < n && (forall j :: 0 <= j < n ==> Magnitude(xs[j]) <= Magnitude(xs[k]))
    && forall j :: 0 <= j < k ==> Magnitude(xs[j]) < Magnitude(xs[k])
  }

  /** The peak is the first value of the largest magnitude; it is zero only when all values are. */
  lemma {:induction false} PeakIsFirstLargest(xs: seq<real>, n: nat)
    requires n <= |xs|
    ensures Peak(xs, n) == 0.0 ==> forall j :: 0 <= j < n ==> xs[j] == 0.0
    ensures Peak(xs, n) != 0.0 ==> exists k :: FirstLargest(xs, n, k) && xs[k] == Peak(xs, n)
  {
    if n > 0 {
      PeakIsFirstLargest(xs, n - 1);
      if Magnitude(xs[n - 1]) > Magnitude(Peak(xs, n - 1)) {
        forall j | 0 <= j < n - 1 ensures Magnitude(xs[j]) < Magnitude(xs[n - 1]) { PeakIsLargest(xs, n - 1, j); }
        assert FirstLargest(xs, n, n - 1);
      } else if Peak(xs, n) != 0.0 {
        var k :| FirstLargest(xs, n - 1, k) && xs[k] == Peak(xs, n);
        assert FirstLargest(xs, n, k);
      }
    }
  }

  /** The highest value, or zero when there is no positive one. */
  lemma {:induction false} HighestIsLargest(xs: seq<real>, n: nat)
    requires n <= |xs|
    ensures Highest(xs, n) >= 0.0 && forall j :: 0 <= j < n ==> xs[j] <= Highest(xs, n)
    ensures Highest(xs, n) > 0.0 ==> exists k :: 0 <= k < n && xs[k] == Highest(xs, n)
  {
    if n > 0 { HighestIsLargest(xs, n - 1); }
  }

  // ---------------------------------------------------------------- how far a decoded value is off

  /** By how much code l misses x. */
  function Off(scale: real, l: int, x: real): real {
    Magnitude(Times(scale, l as real) - x)
  }

  lemma DecodedWithin(scale: real, iscale: real, x: real, l: int, step: real, c: real)
    requires scale * iscale == 1.0 && Magnitude(scale) == step && c >= 0.0
    requires -c <= l as real - Times(iscale, x) <= c
    ensures Off(scale, l, x) <= Times(step, c)
  {
    var d := l as real - iscale * x;
    assert scale * (iscale * x) == (scale * iscale) * x == x;
    assert scale * l as real - x == scale * d;
    if scale >= 0.0 {
      TermMonotone(scale, d, c);
      TermMonotone(scale, -c, d);
    } else {
      TermMonotone(-scale, d, c);
      TermMonotone(-scale, -c, d);
    }
  }

  /** The distance between neighbouring levels: nmax of them reach the peak. */
  function Step(xs: seq<real>, nmax: nat): real
    requires nmax >= 1
  {
    Magnitude(Peak(xs, |xs|)) / nmax as real
  }

  lemma ScaleOfPeak(peak: real, nmax: real, step: real)
    requires nmax >= 1.0 && peak != 0.0 && step == Magnitude(peak) / nmax
    ensures var iscale := -nmax / peak;
      iscale != 0.0 && Magnitude(1.0 / iscale) == step && (1.0 / iscale) * iscale == 1.0 && step > 0.0
      && (peak > 0.0 <==> iscale < 0.0) && Magnitude(iscale) * step == 1.0
  {
    var iscale := -nmax / peak;
    assert iscale * peak == -nmax;
    var scale := 1.0 / iscale;
    assert scale * iscale == 1.0;
    assert scale * nmax == -(scale * iscale) * peak == -peak;
    assert step * nmax == Magnitude(peak);
    assert Magnitude(scale) * nmax == Magnitude(peak);
    assert (Magnitude(scale) - step) * nmax == 0.0;
  }

  lemma ScaledInRange(iscale: real, x: real, peak: real, nmax: real)
    requires nmax >= 1.0 && peak != 0.0 && iscale == -nmax / peak && Magnitude(x) <= Magnitude(peak)
    ensures -nmax <= Times(iscale, x) <= nmax
  {
    assert iscale * peak == -nmax;
    var m := Magnitude(iscale);
    assert m * Magnitude(peak) == nmax;
    TermMonotone(m, x, Magnitude(peak));
    TermMonotone(m, -x, Magnitude(peak));
  }

  /** On the side opposite to the peak, where there is one code less, x lies beyond the middle of the missing level and
      the last one. */
  ghost predicate BeyondLast(xs: seq<real>, nmax: nat, x: real)
    requires nmax >= 1
  {
    if Peak(xs, |xs|) > 0.0 then -x > Times(Step(xs, nmax), nmax as real - 0.5)
      else x > Times(Step(xs, nmax), nmax as real - 0.5)
  }

  lemma NotBeyondLast(iscale: real, x: real, step: real, b: real)
    requires Magnitude(iscale) * step == 1.0 && iscale != 0.0
    requires if iscale < 0.0 then -x <= Times(step, b) else x <= Times(step, b)
    ensures Times(iscale, x) <= b
  {
    var m := Magnitude(iscale);
    var y := if iscale < 0.0 then -x else x;
    TermMonotone(m, y, step * b);
    SameProduct(m, step, b);
    assert iscale * x == m * y;
  }

  lemma SameProduct(m: real, step: real, b: real)
    requires m * step == 1.0
    ensures m * (step * b) == b
  {
    assert m * (step * b) == (m * step) * b;
  }

  lemma NearestWithin(l: int, v: real, nmax: nat)
    requires nmax >= 1 && NearestIn(l, v, 0 - nmax, nmax - 1) && -(nmax as real) <= v <= nmax as real
    ensures -1.0 <= l as real - v <= 1.0 && (v <= nmax as real - 0.5 ==> -0.5 <= l as real - v <= 0.5)
  {
  }

  /** The peak and the inverse scale it gives. */
  ghost predicate PeakScale(peak: real, nmax: nat, iscale: real, step: real) {
    nmax >= 1 && peak != 0.0 && iscale == -(nmax as real) / peak && step == Magnitude(peak) / nmax as real
  }

  lemma WithinStep(peak: real, nmax: nat, x: real, l: int, iscale: real, step: real, c: real)
    requires PeakScale(peak, nmax, iscale, step) && c >= 0.0
    requires -c <= l as real - Times(iscale, x) <= c
    ensures iscale != 0.0 && Off(1.0 / iscale, l, x) <= Times(step, c)
  {
    ScaleOfPeak(peak, nmax as real, step);
    hide Off;
    DecodedWithin(1.0 / iscale, iscale, x, l, step, c);
  }

  lemma CodeWithin(peak: real, nmax: nat, x: real, l: int, iscale: real, step: real)
    requires PeakScale(peak, nmax, iscale, step) && Magnitude(x) <= Magnitude(peak)
    requires NearestIn(l, Times(iscale, x), 0 - nmax, nmax - 1)
    ensures -1.0 <= l as real - Times(iscale, x) <= 1.0
    ensures (if peak > 0.0 then -x <= Times(step, nmax as real - 0.5) else x <= Times(step, nmax as real - 0.5)) ==>
              -0.5 <= l as real - Times(iscale, x) <= 0.5
  {
    ScaleOfPeak(peak, nmax as real, step);
    ScaledInRange(iscale, x, peak, nmax as real);
    hide Times;
    NearestWithin(l, Times(iscale, x), nmax);
    hide NearestIn;
    if if peak > 0.0 then -x <= Times(step, nmax as real - 0.5) else x <= Times(step, nmax as real - 0.5) {
      NotBeyondLast(iscale, x, step, nmax as real - 0.5);
    }
  }

  /** Without the refinement every value comes back within half a step, and within a whole one if it lies beyond the
      last level on the side opposite to the peak. */
  lemma PlainWithinStep(xs: seq<real>, nmax: nat, round: real -> int, i: nat)
    requires nmax >= 1 && Rounding(round) && Magnitude(Peak(xs, |xs|)) >= EPS && i < |xs|
    ensures InverseScale(xs, nmax) != 0.0
    ensures var l, scale := Codes(Q3(xs, nmax, round), InverseScale(xs, nmax))[i], 1.0 / InverseScale(xs, nmax);
      && Off(scale, l, xs[i]) <= Times(Step(xs, nmax), 1.0)
      && (!BeyondLast(xs, nmax, xs[i]) ==> Off(scale, l, xs[i]) <= Times(Step(xs, nmax), 0.5))
  {
    hide Times;
    hide Off;
    hide Peak;
    hide Codes;
    hide NearestIn;
    var p, iscale := Q3(xs, nmax, round), InverseScale(xs, nmax);
    Q3Valid(xs, nmax, round);
    PeakIsLargest(xs, |xs|, i);
    SignedCodesAreNearest(p, iscale, i);
    CodeWithin(Peak(xs, |xs|), nmax, xs[i], Codes(p, iscale)[i], iscale, Step(xs, nmax));
    WithinStep(Peak(xs, |xs|), nmax, xs[i], Codes(p, iscale)[i], iscale, Step(xs, nmax), 1.0);
    if !BeyondLast(xs, nmax, xs[i]) {
      WithinStep(Peak(xs, |xs|), nmax, xs[i], Codes(p, iscale)[i], iscale, Step(xs, nmax), 0.5);
    }
  }

  lemma {:induction false} ErrorWithin(p: Problem, codes: seq<int>, s: real, h: real, n: nat)
    requires Valid(p) && |codes| == |p.xs| && n <= |codes| && h >= 0.0
    requires forall i :: 0 <= i < n ==> Off(s, codes[i], p.xs[i]) <= h
    ensures Error(p, codes, s, n) <= Times(PrefixW(p.ws, n), Square(h))
  {
    if n > 0 {
      ErrorWithin(p, codes, s, h, n - 1);
      TermWithin(p.xs[n - 1], p.ws[n - 1], codes[n - 1], s, h);
      OneMore(PrefixW(p.ws, n - 1), p.ws[n - 1], Square(h));
      hide Times;
      hide Term;
      hide Off;
      hide Square;
    }
  }

  lemma OneMore(a: real, b: real, h: real)
    ensures Times(a + b, h) == Times(a, h) + Times(b, h)
  {
  }

  lemma TermWithin(x: real, w: real, l: int, s: real, h: real)
    requires w >= 0.0 && Off(s, l, x) <= h
    ensures Term(x, w, l as real, s) <= Times(w, Square(h))
  {
    var d := x - Times(s, l as real);
    PositiveTimes(h - d, h + d);
    assert Square(h) - Square(d) == (h - d) * (h + d);
    TermMonotone(w, Square(d), Square(h));
  }

  /** With the refinement the squared error is at most that of missing every value by one step. */
  lemma RefinedWithinStep(xs: seq<real>, nmax: nat, round: real -> int)
    requires nmax >= 1 && Rounding(round) && Magnitude(Peak(xs, |xs|)) >= EPS
    ensures var p, r := Q3(xs, nmax, round), Q3Result(xs, nmax, round);
      |r.codes| == |xs| && Error(p, r.codes, ScaleOf(r), |xs|) <= Times(PrefixW(Squares(xs), |xs|),
        Square(Step(xs, nmax)))
  {
    hide Peak;
    hide Codes;
    hide InverseScale;
    hide Error;
    hide Refine;
    hide Off;
    hide Times;
    hide Square;
    hide PrefixW;
    hide Step;
    var p, iscale := Q3(xs, nmax, round), InverseScale(xs, nmax);
    InverseScaleSign(xs, nmax);
    Q3IsSound(xs, nmax, round, 1.0 / iscale);
    Q3Valid(xs, nmax, round);
    forall i | 0 <= i < |xs|
      ensures Off(1.0 / iscale, Codes(p, iscale)[i], xs[i]) <= Step(xs, nmax)
    {
      PlainWithinStep(xs, nmax, round, i);
      TimesOne(Step(xs, nmax));
    }
    StepPositive(xs, nmax);
    ErrorWithin(p, Codes(p, iscale), 1.0 / iscale, Step(xs, nmax), |xs|);
  }

  lemma TimesOne(h: real)
    ensures Times(h, 1.0) == h
  {
  }

  lemma StepPositive(xs: seq<real>, nmax: nat)
    requires nmax >= 1 && Magnitude(Peak(xs, |xs|)) >= EPS
    ensures Step(xs, nmax) > 0.0
  {
    QuotientPositive(Magnitude(Peak(xs, |xs|)), nmax as real);
  }

  // ---------------------------------------------------------------- make_qp_quants

  lemma GridScaleIs(p: Problem, iscale: real, k: int)
    requires QpInput(p) && -4 <= k <= 4 && iscale * Highest(p.xs, |p.xs|) == p.rule.nmax as real + k as real / 10.0
    ensures iscale == GridScale(p, k) && iscale > 0.0
  {
    var h := Highest(p.xs, |p.xs|);
    GridScalePositive(p, k);
    assert (iscale - GridScale(p, k)) * h == 0.0;
    ZeroFactor(iscale - GridScale(p, k), h);
  }

  lemma ZeroFactor(d: real, h: real)
    requires h > 0.0 && d * h == 0.0
    ensures d == 0.0
  {
  }

  /** The result is at least as good as plain codes with any of the nine scales that put the highest value at nmax, give
      or take up to four tenths. */
  lemma BeatsEveryScale(p: Problem, iscale: real, k: int)
    requires QpInput(p) && -4 <= k <= 4 && iscale * Highest(p.xs, |p.xs|) == p.rule.nmax as real + k as real / 10.0
    ensures var r := QpResult(p);
      |r.codes| == |p.xs| && iscale > 0.0
      && Error(p, r.codes, ScaleOf(r), |p.xs|) <= Error(p, Codes(p, iscale), 1.0 / iscale, |p.xs|)
  {
    hide Error;
    hide GridScale;
    hide Highest;
    hide Codes;
    hide QpResult;
    GridScaleIs(p, iscale, k);
    QpIsSound(p, k, 1.0);
    assert GridError(p, GridScale(p, k)) == GridError(p, iscale);
    assert GridError(p, iscale) == Error(p, Codes(p, iscale), 1.0 / iscale, |p.xs|);
  }

  /** The highest value over twice the highest code. */
  function HalfLevel(p: Problem): real
    requires p.rule.nmax >= 1
  {
    Highest(p.xs, |p.xs|) / (2 * p.rule.nmax) as real
  }

  lemma UpperWithin(p: Problem, i: nat)
    requires QpInput(p) && i < |p.xs|
    ensures GridScale(p, 0) > 0.0
    ensures Off(1.0 / GridScale(p, 0), Codes(p, GridScale(p, 0))[i], p.xs[i]) <= HalfLevel(p)
  {
    hide Codes;
    hide Highest;
    hide NearestIn;
    hide Off;
    hide Times;
    var h, iscale := Highest(p.xs, |p.xs|), GridScale(p, 0);
    GridScalePositive(p, 0);
    HighestBounds(p.xs, |p.xs|, i);
    FirstGridScale(p);
    UpperCodesAreNearest(p, iscale, i);
    hide GridScale;
    LevelWithin(iscale, h, p.rule.nmax, p.xs[i], Codes(p, iscale)[i], HalfLevel(p));
  }

  lemma FirstGridScale(p: Problem)
    requires QpInput(p)
    ensures GridScale(p, 0) * Highest(p.xs, |p.xs|) == p.rule.nmax as real
  {
  }

  lemma LevelWithin(iscale: real, h: real, nmax: nat, x: real, l: int, half: real)
    requires iscale > 0.0 && nmax >= 1 && iscale * h == nmax as real && 0.0 <= x <= h && half == h / (2 * nmax) as real
    requires NearestIn(l, Times(iscale, x), 0, nmax)
    ensures Off(1.0 / iscale, l, x) <= half
  {
    NonnegativeTimes(iscale, x);
    TermMonotone(iscale, x, h);
    HalfOf(iscale, h, nmax as real, half);
    hide Off;
    DecodedWithin(1.0 / iscale, iscale, x, l, 1.0 / iscale, 0.5);
  }

  lemma HalfOf(iscale: real, h: real, nmax: real, half: real)
    requires iscale > 0.0 && nmax >= 1.0 && iscale * h == nmax && half == h / (2.0 * nmax)
    ensures 1.0 / iscale > 0.0 && (1.0 / iscale) * iscale == 1.0 && Times(1.0 / iscale, 0.5) == half
  {
    var scale := 1.0 / iscale;
    assert scale * iscale == 1.0;
    QuotientPositive(1.0, iscale);
    assert scale * nmax == (scale * iscale) * h == h;
    assert half * (2.0 * nmax) == h;
    assert (half - scale * 0.5) * (2.0 * nmax) == 0.0;
  }

  lemma HalfLevelPositive(p: Problem)
    requires QpInput(p)
    ensures HalfLevel(p) > 0.0
  {
    QuotientPositive(Highest(p.xs, |p.xs|), (2 * p.rule.nmax) as real);
  }

  /** The squared error is at most that of missing every value by half a level. */
  lemma QpWithinHalfLevel(p: Problem)
    requires QpInput(p)
    ensures var r := QpResult(p);
      |r.codes| == |p.xs|
      && Error(p, r.codes, ScaleOf(r), |p.xs|) <= Times(PrefixW(p.ws, |p.ws|), Square(HalfLevel(p)))
  {
    hide Error;
    hide GridScale;
    hide Codes;
    hide Highest;
    hide HalfLevel;
    hide QpResult;
    hide Off;
    hide Times;
    hide Square;
    hide PrefixW;
    var iscale := GridScale(p, 0);
    GridScalePositive(p, 0);
    QpIsSound(p, 0, 1.0);
    forall i | 0 <= i < |p.xs| ensures Off(1.0 / iscale, Codes(p, iscale)[i], p.xs[i]) <= HalfLevel(p) {
      UpperWithin(p, i);
    }
    HalfLevelPositive(p);
    ErrorWithin(p, Codes(p, iscale), 1.0 / iscale, HalfLevel(p), |p.xs|);
  }

  // ---------------------------------------------------------------- one move

  lemma ProposalAlgebra(w: real, x: real, b: real, a: real, q: real, c: real, u: real, v: real, f: real, g: real)
    requires b > 0.0 && a >= 0.0 && w >= 0.0 && q * b == x * a
    requires u == b + w * (c * x) && v == b + w * (q * x) && f == a + w * (c * c) && g == a + w * (q * q)
    ensures (u * u) * g <= (v * v) * f
  {
    var z := w * (x * x);
    var k := b * b + z * a;
    ProposalSums(w, x, b, a, q, k);
    ProposalGap(w, x, b, a, c, k, u, f);
    SquareWeight(x, w);
    assert z >= 0.0;
    PositiveTimes(z, a);
    FinalStep(u * u, v, f, g, a, b, k);
  }

  lemma FinalStep(u2: real, v: real, f: real, g: real, a: real, b: real, k: real)
    requires b > 0.0 && k >= 0.0 && g * (b * b) == a * k && v * b == k && a * u2 <= k * f
    ensures u2 * g <= (v * v) * f
  {
    TermMonotone(k, a * u2, k * f);
    Regroup(u2, g, b, a, k);
    RegroupSquare(v, b, k, f);
    var l, r := u2 * g, (v * v) * f;
    Cancel(b, l * b, r * b, k * (a * u2), k * (k * f));
    Cancel(b, l, r, l * b, r * b);
  }

  lemma Cancel(m: real, l: real, r: real, x: real, y: real)
    requires m > 0.0 && m * l == x && m * r == y && x <= y
    ensures l <= r
  {
    assert m * (r - l) == y - x;
    PositiveFactor(m, r - l);
  }

  lemma Regroup(u2: real, g: real, b: real, a: real, k: real)
    requires g * (b * b) == a * k
    ensures b * ((u2 * g) * b) == k * (a * u2)
  {
    assert b * ((u2 * g) * b) == u2 * (g * (b * b));
  }

  lemma RegroupSquare(v: real, b: real, k: real, f: real)
    requires v * b == k
    ensures b * (((v * v) * f) * b) == k * (k * f)
  {
    assert b * (((v * v) * f) * b) == (v * b) * ((v * b) * f);
  }

  lemma ProposalSums(w: real, x: real, b: real, a: real, q: real, k: real)
    requires q * b == x * a && k == b * b + w * (x * x) * a
    ensures (a + w * (q * q)) * (b * b) == a * k
    ensures (b + w * (q * x)) * b == k
  {
    assert (q * q) * (b * b) == (q * b) * (q * b) == (x * a) * (x * a);
    assert w * (q * q) * (b * b) == w * ((x * a) * (x * a)) == a * (w * (x * x) * a);
    assert w * (q * x) * b == w * ((q * b) * x) == w * ((x * a) * x) == w * (x * x) * a;
  }

  lemma ProposalGap(w: real, x: real, b: real, a: real, c: real, k: real, u: real, f: real)
    requires w >= 0.0 && k == b * b + w * (x * x) * a && u == b + w * (c * x) && f == a + w * (c * c)
    ensures a * (u * u) <= k * f
  {
    var d := b * c - x * a;
    SquareWeight(d, w);
    GapExpands(w, x, b, a, c);
    assert k * f - a * (u * u) == w * (d * d);
  }

  lemma GapExpands(w: real, x: real, b: real, a: real, c: real)
    ensures (b * b + w * (x * x) * a) * (a + w * (c * c)) - a * ((b + w * (c * x)) * (b + w * (c * x)))
              == w * ((b * c - x * a) * (b * c - x * a))
  {
    var y, z := w * (c * c), w * (x * x);
    var cross := w * (c * x);
    assert cross * cross == y * z;
    assert (b + cross) * (b + cross) == b * b + 2.0 * b * cross + cross * cross;
    assert w * ((b * c - x * a) * (b * c - x * a)) == b * b * y - 2.0 * (b * a * cross) + a * a * z;
    assert (b * b + z * a) * (a + y) == b * b * a + b * b * y + z * a * a + z * a * y;
    assert a * (b * b + 2.0 * b * cross + cross * cross) == a * (b * b) + 2.0 * (b * a * cross) + a * (y * z);
  }

  /** No real code in place of the one at i does better than the proposal: its rounding is what the refinement tries. */
  lemma ProposalIsBest(x: real, w: real, slx: real, sl2: real, c: real)
    requires slx > 0.0 && sl2 >= 0.0 && w >= 0.0
    ensures var q := Proposal(x, sl2, slx);
      !Gains(slx + Times(w, Times(c, x)), sl2 + Times(w, Times(c, c)), slx + Times(w, Times(q, x)),
        sl2 + Times(w, Times(q, q)))
  {
    var q := Proposal(x, sl2, slx);
    assert q * slx == x * sl2;
    var u, v, f, g := slx + Times(w, Times(c, x)), slx + Times(w, Times(q, x)), sl2 + Times(w, Times(c, c)),
                      sl2 + Times(w, Times(q, q));
    assert Times(Times(u, u), g) <= Times(Times(v, v), f) by {
      ProposalAlgebra(w, x, slx, sl2, q, c, u, v, f, g);
    }
    hide Times;
  }

  /** The sums without code i: the cross products and the squares. */
  function Rest(p: Problem, st: State, i: nat): (real, real)
    requires |st.codes| == |p.xs| == |p.ws| && i < |p.xs|
  {
    var l := st.codes[i] as real;
    (st.lx - Times(p.ws[i], Times(l, p.xs[i])), st.l2 - Times(p.ws[i], Times(l, l)))
  }

  lemma ProposalIs(x: real, sl2: real, slx: real, v: real)
    requires slx > 0.0 && Times(v, slx) == Times(x, sl2)
    ensures v == Proposal(x, sl2, slx)
  {
    var q := Proposal(x, sl2, slx);
    assert q * slx == x * sl2;
    assert (v - q) * slx == 0.0;
    ZeroFactor(v - q, slx);
  }

  /** Only code i moves, and it becomes a nearest code to the proposal v for its value. */
  lemma MovesToNearest(p: Problem, st: State, i: nat, v: real)
    requires Valid(p) && p.rule.Signed? && |st.codes| == |p.xs| && i < |p.xs| && Visit(p, st, i) != st
    requires Times(v, Rest(p, st, i).0) == Times(p.xs[i], Rest(p, st, i).1)
    ensures Rest(p, st, i).0 > 0.0
    ensures NearestIn(Visit(p, st, i).codes[i], v, 0 - p.rule.nmax, p.rule.nmax - 1)
    ensures forall k :: 0 <= k < |p.xs| && k != i ==> Visit(p, st, i).codes[k] == st.codes[k]
  {
    hide Times;
    hide Gains;
    hide NearestIn;
    hide Proposal;
    var (slx, sl2) := Rest(p, st, i);
    ProposalIs(p.xs[i], sl2, slx, v);
    LimitedIsNearest(p.rule, p.round, v);
  }

  // ---------------------------------------------------------------- when the refinement stops

  /** So many whole sweeps. */
  ghost function Sweeps(p: Problem, st: State, n: nat): (r: State)
    requires |st.codes| == |p.xs| == |p.ws|
    ensures |r.codes| == |p.xs|
  {
    if n == 0 then st else Sweep(p, Sweeps(p, st, n - 1), |p.xs|)
  }

  lemma {:induction false} SweepsShift(p: Problem, st: State, n: nat)
    requires |st.codes| == |p.xs| == |p.ws|
    ensures Sweeps(p, Sweep(p, st, |p.xs|), n) == Sweeps(p, st, n + 1)
  {
    if n > 0 { SweepsShift(p, st, n - 1); } else { assert Sweeps(p, st, 0) == st; }
  }

  lemma {:induction false} SweepsExact(p: Problem, st: State, n: nat)
    requires Valid(p) && Exact(p, st)
    ensures Exact(p, Sweeps(p, st, n))
  {
    if n > 0 {
      SweepsExact(p, st, n - 1);
      SweepBetter(p, Sweeps(p, st, n - 1), |p.xs|);
    }
  }

  /** n sweeps were made: every one of them changed a code, except the last if there were fewer than allowed. */
  ghost predicate StopsAfter(p: Problem, st: State, tries: nat, n: nat)
    requires |st.codes| == |p.xs| == |p.ws|
  {
    && n <= tries
    && (forall m :: 0 < m < n ==> Sweeps(p, st, m).changed != 0)
    && (n < tries ==> n > 0 && Sweeps(p, st, n).changed == 0)
  }

  lemma {:induction false} RefineStops(p: Problem, st: State, tries: nat)
    requires |st.codes| == |p.xs| == |p.ws|
    ensures exists n: nat :: Refine(p, st, tries) == Sweeps(p, st, n) && StopsAfter(p, st, tries, n)
    decreases tries
  {
    hide Sweep;
    var first := Sweeps(p, st, 0);
    if tries == 0 {
      assert StopsAfter(p, st, 0, 0);
    } else {
      var r := Sweep(p, st, |p.xs|);
      assert Sweeps(p, st, 1) == r;
      if r.changed == 0 {
        assert StopsAfter(p, st, tries, 1);
      } else {
        RefineStops(p, r, tries - 1);
        var n: nat :| Refine(p, r, tries - 1) == Sweeps(p, r, n) && StopsAfter(p, r, tries - 1, n);
        SweepsShift(p, st, n);
        forall m: nat | 0 < m < n + 1 ensures Sweeps(p, st, m).changed != 0 {
          SweepsShift(p, st, m - 1);
        }
        assert StopsAfter(p, st, tries, n + 1);
      }
    }
  }

  /** A sweep that changes nothing finds no code that would move. */
  lemma SweepSettles(p: Problem, st: State, i: nat)
    requires Valid(p) && Exact(p, st) && i < |p.xs| && Sweep(p, st, |p.xs|).changed == 0
    ensures Visit(p, Sweep(p, st, |p.xs|), i) == Sweep(p, st, |p.xs|)
  {
    hide Visit;
    QuietSweep(p, st, i);
    QuietSweep(p, st, |p.xs|);
    ChangesAddUp(p, st, i + 1, |p.xs|);
    VisitRaises(p, Sweep(p, st, i), i);
  }

  lemma {:induction false} QuietSweep(p: Problem, st: State, n: nat)
    requires Valid(p) && Exact(p, st) && n <= |p.xs| && Sweep(p, st, |p.xs|).changed == 0
    ensures Sweep(p, st, n) == st.(changed := 0) && Exact(p, Sweep(p, st, n))
  {
    hide Visit;
    if n > 0 {
      QuietSweep(p, st, n - 1);
      ChangesAddUp(p, st, n, |p.xs|);
      VisitRaises(p, Sweep(p, st, n - 1), n - 1);
    }
  }

  /** The refinement uses all its sweeps, or ends where no code would move. */
  lemma RefineSettles(p: Problem, st: State, tries: nat)
    requires Valid(p) && Exact(p, st)
    ensures var r := Refine(p, st, tries);
      || r == Sweeps(p, st, tries)
      || forall i :: 0 <= i < |p.xs| ==> Visit(p, r, i) == r
  {
    hide Sweep;
    hide Visit;
    RefineStops(p, st, tries);
    var r := Refine(p, st, tries);
    var n: nat :| r == Sweeps(p, st, n) && StopsAfter(p, st, tries, n);
    if n < tries {
      var before := Sweeps(p, st, n - 1);
      SweepsExact(p, st, n - 1);
      forall i | 0 <= i < |p.xs| ensures Visit(p, r, i) == r { SweepSettles(p, before, i); }
    }
  }
}
