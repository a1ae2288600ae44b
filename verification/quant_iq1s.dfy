/** The IQ1_S search (quantize_row_iq1_s_impl in CGGML/ggml-quants.c) over exact reals: three levels, one scale, least
    weighted squares. */
module QuantIq1s {
  import opened QuantSums

  /** IQ1S_DELTA */
  const DELTA := 0.125

  /** GROUP_MAX_EPS_IQ1_S */
  const TINY := 0.000000000001

  /** FLT_MAX */
  const FLT_MAX := 340282346638528859811704183484516925440.0

  /** The three levels, in ascending order. */
  datatype Levels = Levels(lo: real, mid: real, hi: real) {
    function Of(k: nat): real {
      if k == 0 then lo else if k == 1 then mid else hi
    }
  }

  const UP := Levels(-1.0 + DELTA, DELTA, 1.0 + DELTA)
  const DOWN := Levels(-1.0 - DELTA, -DELTA, 1.0 - DELTA)

  predicate IsLevels(t: Levels) {
    t == UP || t == DOWN
  }

  // ---------------------------------------------------------------- sums over the first n values

  ghost predicate Data(xs: seq<real>, ws: seq<real>) {
    |xs| == |ws| && forall i :: 0 <= i < |ws| ==> ws[i] >= 0.0
  }

  ghost predicate Codes(a: seq<nat>, n: nat) {
    |a| == n && forall i :: 0 <= i < n ==> a[i] <= 2
  }

  /** Weighted squared error of the first n values. */
  function Error(xs: seq<real>, ws: seq<real>, a: seq<nat>, t: Levels, s: real, n: nat): real
    requires |xs| == |ws| == |a| && n <= |xs|
  {
    if n == 0 then 0.0 else Error(xs, ws, a, t, s, n - 1) + Term(xs[n - 1], ws[n - 1], t.Of(a[n - 1]), s)
  }

  function SumQX(xs: seq<real>, ws: seq<real>, a: seq<nat>, t: Levels, n: nat): real
    requires |xs| == |ws| == |a| && n <= |xs|
  {
    if n == 0 then 0.0 else SumQX(xs, ws, a, t, n - 1) + Times(Times(ws[n - 1], xs[n - 1]), t.Of(a[n - 1]))
  }

  function SumQQ(ws: seq<real>, a: seq<nat>, t: Levels, n: nat): real
    requires |ws| == |a| && n <= |ws|
  {
    if n == 0 then 0.0 else SumQQ(ws, a, t, n - 1) + Times(ws[n - 1], Times(t.Of(a[n - 1]), t.Of(a[n - 1])))
  }

  /** The error is a parabola in the scale. */
  lemma {:induction false} ErrorIsParabola(xs: seq<real>, ws: seq<real>, a: seq<nat>, t: Levels, s: real, n: nat)
    requires |xs| == |ws| == |a| && n <= |xs|
    ensures Error(xs, ws, a, t, s, n) == Parabola(SumUV(ws, xs, xs, n), SumQX(xs, ws, a, t, n), SumQQ(ws, a, t, n), s)
  {
    if n > 0 {
      hide Parabola;
      hide Times;
      hide Term;
      ErrorIsParabola(xs, ws, a, t, s, n - 1);
      TermExpands(xs[n - 1], ws[n - 1], t.Of(a[n - 1]), s);
      ParabolaStep(SumUV(ws, xs, xs, n - 1), SumQX(xs, ws, a, t, n - 1), SumQQ(ws, a, t, n - 1), s,
                   Times(ws[n - 1], Times(xs[n - 1], xs[n - 1])), Times(Times(ws[n - 1], xs[n - 1]), t.Of(a[n - 1])),
                   Times(ws[n - 1], Times(t.Of(a[n - 1]), t.Of(a[n - 1]))));
    }
  }

  // ---------------------------------------------------------------- splits of the sorted values

  /** Level 0 below i1, level 1 below i2, level 2 above. */
  function Split(n: nat, i1: nat, i2: nat): (a: seq<nat>)
    ensures |a| == n && forall j :: 0 <= j < n ==> a[j] == if j < i1 then 0 else if j < i2 then 1 else 2
  {
    seq(n, j => if j < i1 then 0 else if j < i2 then 1 else 2)
  }

  ghost predicate Ascending(xs: seq<real>) {
    forall i, j :: 0 <= i < j < |xs| ==> xs[i] <= xs[j]
  }

  /** How many of the first n ascending values are at most c. */
  function Cut(xs: seq<real>, c: real, n: nat): (r: nat)
    requires n <= |xs|
    ensures r <= n
  {
    if n == 0 then 0 else if xs[n - 1] <= c then n else Cut(xs, c, n - 1)
  }

  lemma {:induction false} CutMeaning(xs: seq<real>, c: real, n: nat, j: nat)
    requires Ascending(xs) && j < n <= |xs|
    ensures j < Cut(xs, c, n) <==> xs[j] <= c
  {
    if xs[n - 1] > c && j < n - 1 { CutMeaning(xs, c, n - 1, j); }
  }

  lemma SquareCloser(x: real, p: real, q: real)
    requires (p <= q && 2.0 * x <= p + q) || (q <= p && 2.0 * x >= p + q)
    ensures Square(x - p) <= Square(x - q)
  {
    var u, v := q - p, p + q - 2.0 * x;
    assert u * v >= 0.0;
    assert (x - q) * (x - q) - (x - p) * (x - p) == u * v;
  }

  lemma ScaledOrder(s: real, p: real, q: real)
    requires s >= 0.0 && p <= q
    ensures s * p <= s * q
  {
    assert s * (q - p) >= 0.0;
  }

  /** The split at the midpoints between the scaled levels. */
  function NearestSplit(xs: seq<real>, t: Levels, s: real): seq<nat> {
    Split(|xs|, Cut(xs, (s * t.lo + s * t.mid) / 2.0, |xs|), Cut(xs, (s * t.mid + s * t.hi) / 2.0, |xs|))
  }

  lemma {:induction false} CutGrows(xs: seq<real>, c: real, d: real, n: nat)
    requires c <= d && n <= |xs|
    ensures Cut(xs, c, n) <= Cut(xs, d, n)
  {
    if n > 0 && xs[n - 1] > d { CutGrows(xs, c, d, n - 1); }
  }

  lemma ThreeLevels(x: real, lo: real, mid: real, hi: real, b: nat, k: nat)
    requires lo <= mid <= hi && k <= 2
    requires b == if x <= (lo + mid) / 2.0 then 0 else if x <= (mid + hi) / 2.0 then 1 else 2
    ensures Square(x - Levels(lo, mid, hi).Of(b)) <= Square(x - Levels(lo, mid, hi).Of(k))
  {
    SquareCloser(x, Levels(lo, mid, hi).Of(b), Levels(lo, mid, hi).Of(k));
  }

  /** No code is closer to a value than the code of the nearest split. */
  lemma NearestIsCloser(xs: seq<real>, t: Levels, s: real, j: nat, k: nat)
    requires Ascending(xs) && IsLevels(t) && s >= 0.0 && j < |xs| && k <= 2
    ensures Square(xs[j] - s * t.Of(NearestSplit(xs, t, s)[j])) <= Square(xs[j] - s * t.Of(k))
  {
    hide Square;
    ScaledOrder(s, t.lo, t.mid);
    ScaledOrder(s, t.mid, t.hi);
    var lo, mid, hi := s * t.lo, s * t.mid, s * t.hi;
    CutMeaning(xs, (lo + mid) / 2.0, |xs|, j);
    CutMeaning(xs, (mid + hi) / 2.0, |xs|, j);
    var b := NearestSplit(xs, t, s)[j];
    ThreeLevels(xs[j], lo, mid, hi, b, k);
    assert s * t.Of(b) == Levels(lo, mid, hi).Of(b) && s * t.Of(k) == Levels(lo, mid, hi).Of(k);
  }

  lemma NearestIsSplit(xs: seq<real>, t: Levels, s: real)
    requires IsLevels(t) && s >= 0.0
    ensures var c, d := Cut(xs, (s * t.lo + s * t.mid) / 2.0, |xs|), Cut(xs, (s * t.mid + s * t.hi) / 2.0, |xs|);
            NearestSplit(xs, t, s) == Split(|xs|, c, d) && c <= d && |NearestSplit(xs, t, s)| == |xs|
  {
    ScaledOrder(s, t.lo, t.hi);
    CutGrows(xs, (s * t.lo + s * t.mid) / 2.0, (s * t.mid + s * t.hi) / 2.0, |xs|);
  }

  lemma TermIsCloser(xs: seq<real>, ws: seq<real>, t: Levels, s: real, j: nat, k: nat)
    requires Data(xs, ws) && Ascending(xs) && IsLevels(t) && s >= 0.0 && j < |xs| && k <= 2
    ensures j < |NearestSplit(xs, t, s)|
    ensures Term(xs[j], ws[j], t.Of(NearestSplit(xs, t, s)[j]), s) <= Term(xs[j], ws[j], t.Of(k), s)
  {
    NearestIsCloser(xs, t, s, j, k);
    hide Square;
    TermMonotone(ws[j], Square(xs[j] - s * t.Of(NearestSplit(xs, t, s)[j])), Square(xs[j] - s * t.Of(k)));
  }

  /** With a scale that is not negative, some split is at least as good as any assignment. */
  lemma {:induction false} SplitsSuffice(xs: seq<real>, ws: seq<real>, a: seq<nat>, t: Levels, s: real, n: nat)
    requires Data(xs, ws) && Codes(a, |xs|) && Ascending(xs) && IsLevels(t) && s >= 0.0 && n <= |xs|
    ensures Error(xs, ws, NearestSplit(xs, t, s), t, s, n) <= Error(xs, ws, a, t, s, n)
  {
    hide NearestSplit;
    hide Term;
    NearestIsSplit(xs, t, s);
    if n > 0 {
      SplitsSuffice(xs, ws, a, t, s, n - 1);
      TermIsCloser(xs, ws, t, s, n - 1, a[n - 1]);
    }
  }

  function Mirror(t: Levels): Levels {
    Levels(-t.hi, -t.mid, -t.lo)
  }

  function MirrorCodes(a: seq<nat>): seq<nat>
    requires Codes(a, |a|)
  {
    seq(|a|, j requires 0 <= j < |a| => 2 - a[j])
  }

  lemma MirrorOf(t: Levels, k: nat)
    requires k <= 2
    ensures Mirror(t).Of(2 - k) == -t.Of(k)
  {
  }

  lemma TermMirror(x: real, w: real, t: Levels, k: nat, s: real)
    requires k <= 2
    ensures Term(x, w, Mirror(t).Of(2 - k), -s) == Term(x, w, t.Of(k), s)
  {
    MirrorOf(t, k);
    assert (-s) * Mirror(t).Of(2 - k) == s * t.Of(k);
  }

  /** The mirrored levels with the opposite scale say the same. */
  lemma {:induction false} MirrorSame(xs: seq<real>, ws: seq<real>, a: seq<nat>, t: Levels, s: real, n: nat)
    requires |xs| == |ws| && Codes(a, |xs|) && n <= |xs|
    ensures Error(xs, ws, MirrorCodes(a), Mirror(t), -s, n) == Error(xs, ws, a, t, s, n)
  {
    hide Term;
    hide Mirror;
    if n > 0 {
      MirrorSame(xs, ws, a, t, s, n - 1);
      TermMirror(xs[n - 1], ws[n - 1], t, a[n - 1], s);
    }
  }

  // ---------------------------------------------------------------- what the search maximises

  function Least(i: nat, n: nat): nat {
    if i < n then i else n
  }

  /** Group sums times level factors. */
  function Groups(s1: real, s2: real, s3: real, f: real, g: real, h: real): real {
    Times(s1, f) + Times(s2 - s1, g) + Times(s3 - s2, h)
  }

  lemma GroupsStep(s1: real, s2: real, s3: real, f: real, g: real, h: real, d: real)
    ensures Groups(s1, s2, s3 + d, f, g, h) == Groups(s1, s2, s3, f, g, h) + Times(d, h)
    ensures Groups(s1, s2 + d, s3 + d, f, g, h) == Groups(s1, s2, s3, f, g, h) + Times(d, g)
    ensures Groups(s1 + d, s2 + d, s3 + d, f, g, h) == Groups(s1, s2, s3, f, g, h) + Times(d, f)
  {
  }

  lemma {:induction false} SplitQX(xs: seq<real>, ws: seq<real>, i1: nat, i2: nat, t: Levels, n: nat)
    requires |xs| == |ws| && i1 <= i2 && n <= |xs|
    ensures SumQX(xs, ws, Split(|xs|, i1, i2), t, n)
              == Groups(PrefixWX(xs, ws, Least(i1, n)), PrefixWX(xs, ws, Least(i2, n)), PrefixWX(xs, ws, n), t.lo,
                t.mid, t.hi)
  {
    if n > 0 {
      hide Groups;
      hide Times;
      SplitQX(xs, ws, i1, i2, t, n - 1);
      GroupsStep(PrefixWX(xs, ws, Least(i1, n - 1)), PrefixWX(xs, ws, Least(i2, n - 1)), PrefixWX(xs, ws, n - 1), t.lo,
        t.mid, t.hi, Times(ws[n - 1], xs[n - 1]));
    }
  }

  lemma {:induction false} SplitQQ(ws: seq<real>, i1: nat, i2: nat, t: Levels, n: nat)
    requires i1 <= i2 && n <= |ws|
    ensures SumQQ(ws, Split(|ws|, i1, i2), t, n)
              == Groups(PrefixW(ws, Least(i1, n)), PrefixW(ws, Least(i2, n)), PrefixW(ws, n), Times(t.lo, t.lo),
                Times(t.mid, t.mid), Times(t.hi, t.hi))
  {
    if n > 0 {
      hide Groups;
      hide Times;
      SplitQQ(ws, i1, i2, t, n - 1);
      GroupsStep(PrefixW(ws, Least(i1, n - 1)), PrefixW(ws, Least(i2, n - 1)), PrefixW(ws, n - 1), Times(t.lo, t.lo),
        Times(t.mid, t.mid), Times(t.hi, t.hi), ws[n - 1]);
    }
  }

  // ---------------------------------------------------------------- the search

  function Numerator(xs: seq<real>, ws: seq<real>, i1: nat, i2: nat, t: Levels): real
    requires |xs| == |ws| && i1 <= i2 <= |xs|
  {
    SumQX(xs, ws, Split(|xs|, i1, i2), t, |xs|)
  }

  function Denominator(xs: seq<real>, ws: seq<real>, i1: nat, i2: nat, t: Levels): real
    requires |xs| == |ws| && i1 <= i2 <= |xs|
  {
    SumQQ(ws, Split(|ws|, i1, i2), t, |ws|)
  }

  /** best_score, scale, besti1, besti2, best_shift. */
  datatype Best = Best(score: real, scale: real, i1: int, i2: int, shift: int)

  function LevelsOf(shift: int): Levels {
    if shift == 1 then UP else DOWN
  }

  /** The codes 0, 1, 2 stand for -1, 0, 1, moved up by DELTA for shift 1 and down for shift -1. */
  lemma LevelsAre(shift: int, k: nat)
    requires (shift == 1 || shift == -1) && k <= 2
    ensures LevelsOf(shift).Of(k) == (k as int - 1) as real + shift as real / 8.0
    ensures LevelsOf(shift) == Levels(shift as real / 8.0 - 1.0, shift as real / 8.0, shift as real / 8.0 + 1.0)
  {
  }

  /** A split that has been considered does not beat the best score. */
  ghost predicate Beaten(b: Best, xs: seq<real>, ws: seq<real>, i1: nat, i2: nat, t: Levels)
    requires |xs| == |ws| && i1 <= i2 <= |xs|
  {
    var q, p := Numerator(xs, ws, i1, i2, t), Denominator(xs, ws, i1, i2, t);
    p > 0.0 ==> Times(q, q) <= Times(b.score, p)
  }

  /** The best score belongs to the recorded split, with the scale that is best for it. */
  ghost predicate Achieved(b: Best, xs: seq<real>, ws: seq<real>)
    requires |xs| == |ws|
  {
    if b.i1 < 0 then b.score == -FLT_MAX
    else
      && 0 <= b.i1 <= b.i2 <= |xs| && (b.shift == 1 || b.shift == -1)
      && var q, p := Numerator(xs, ws, b.i1, b.i2, LevelsOf(b.shift)),
        Denominator(xs, ws, b.i1, b.i2, LevelsOf(b.shift));
         p > 0.0 && Times(b.scale, p) == q && b.score == Times(b.scale, q)
  }

  lemma ScoreGrows(score: real, q: real, p: real, scale: real)
    requires p > 0.0 && Times(q, q) > Times(score, p) && scale == q / p
    ensures Times(scale, p) == q && Times(Times(scale, q), p) == Times(q, q) && Times(scale, q) > score
  {
    assert scale * p == q;
    assert (scale * q) * p == q * q;
    if scale * q <= score { ScaledOrderLeft(scale * q, score, p); }
  }

  lemma ScaledOrderLeft(x: real, y: real, p: real)
    requires x <= y && p >= 0.0
    ensures Times(x, p) <= Times(y, p)
  {
    assert (y - x) * p >= 0.0;
  }

  /** One comparison of the inner loop. */
  method Try(b: Best, ghost xs: seq<real>, ghost ws: seq<real>, sumqx: real, sumq2: real, i1: nat, i2: nat, shift: int)
    returns (r: Best)
    requires |xs| == |ws| && i1 <= i2 <= |xs| && (shift == 1 || shift == -1)
    requires sumqx == Numerator(xs, ws, i1, i2, LevelsOf(shift))
             && sumq2 == Denominator(xs, ws, i1, i2, LevelsOf(shift))
    requires Achieved(b, xs, ws) && b.score >= -FLT_MAX
    ensures Achieved(r, xs, ws) && r.score >= b.score && Beaten(r, xs, ws, i1, i2, LevelsOf(shift))
  {
    hide Numerator;
    hide Denominator;
    if sumq2 > 0.0 && sumqx * sumqx > b.score * sumq2 {
      var scale := sumqx / sumq2;
      ScoreGrows(b.score, sumqx, sumq2, scale);
      r := Best(scale * sumqx, scale, i1, i2, shift);
    } else {
      r := b;
    }
  }

  lemma StillBeaten(b: Best, r: Best, xs: seq<real>, ws: seq<real>, i1: nat, i2: nat, t: Levels)
    requires |xs| == |ws| && i1 <= i2 <= |xs| && Beaten(b, xs, ws, i1, i2, t) && r.score >= b.score
    ensures Beaten(r, xs, ws, i1, i2, t)
  {
    var p := Denominator(xs, ws, i1, i2, t);
    if p > 0.0 { ScaledOrderLeft(b.score, r.score, p); }
  }

  ghost predicate AllBeaten(b: Best, xs: seq<real>, ws: seq<real>, c1: nat, c2: nat)
    requires |xs| == |ws|
  {
    forall i1: nat, i2: nat :: i1 <= i2 <= |xs| && (i1 < c1 || (i1 == c1 && i2 < c2)) ==>
      Beaten(b, xs, ws, i1, i2, UP) && Beaten(b, xs, ws, i1, i2, DOWN)
  }

  /** Both comparisons for one split. */
  method TryBoth(b: Best, ghost xs: seq<real>, ghost ws: seq<real>, sumx: seq<real>, sumw: seq<real>, i1: nat, i2: nat)
    returns (r: Best)
    requires |xs| == |ws| && i1 <= i2 <= |xs| && |sumx| == |sumw| == |xs| + 1
    requires forall j :: 0 <= j <= |xs| ==> sumx[j] == PrefixWX(xs, ws, j) && sumw[j] == PrefixW(ws, j)
    requires Achieved(b, xs, ws) && b.score >= -FLT_MAX
    ensures Achieved(r, xs, ws) && r.score >= b.score && Beaten(r, xs, ws, i1, i2, UP)
            && Beaten(r, xs, ws, i1, i2, DOWN)
  {
    hide Achieved;
    hide Beaten;
    var sumqx, sumq2 := SumsOf(xs, ws, sumx, sumw, i1, i2, UP);
    r := Try(b, xs, ws, sumqx, sumq2, i1, i2, 1);
    ghost var mid := r;
    sumqx, sumq2 := SumsOf(xs, ws, sumx, sumw, i1, i2, DOWN);
    r := Try(r, xs, ws, sumqx, sumq2, i1, i2, -1);
    StillBeaten(mid, r, xs, ws, i1, i2, UP);
  }

  method SumsOf(ghost xs: seq<real>, ghost ws: seq<real>, sumx: seq<real>, sumw: seq<real>, i1: nat, i2: nat, t: Levels)
    returns (sumqx: real, sumq2: real)
    requires |xs| == |ws| && i1 <= i2 <= |xs| && |sumx| == |sumw| == |xs| + 1
    requires forall j :: 0 <= j <= |xs| ==> sumx[j] == PrefixWX(xs, ws, j) && sumw[j] == PrefixW(ws, j)
    ensures sumqx == Numerator(xs, ws, i1, i2, t) && sumq2 == Denominator(xs, ws, i1, i2, t)
  {
    hide Times;
    var n := |sumx| - 1;
    SplitQX(xs, ws, i1, i2, t, n);
    SplitQQ(ws, i1, i2, t, n);
    sumqx := Times(sumx[i1] - sumx[0], t.lo) + Times(sumx[i2] - sumx[i1], t.mid) + Times(sumx[n] - sumx[i2], t.hi);
    sumq2 := Times(sumw[i1] - sumw[0], Times(t.lo, t.lo)) + Times(sumw[i2] - sumw[i1], Times(t.mid, t.mid))
      + Times(sumw[n] - sumw[i2], Times(t.hi, t.hi));
  }

  /** The prefix sums and the double loop over the boundaries. */
  method Search(xs: seq<real>, ws: seq<real>, max: real) returns (b: Best)
    requires |xs| == |ws|
    ensures Achieved(b, xs, ws) && AllBeaten(b, xs, ws, |xs| + 1, 0)
  {
    var n := |xs|;
    var sumx, sumw, j := [0.0], [0.0], 0;
    while j < n
      invariant j <= n && |sumx| == |sumw| == j + 1
      invariant forall k :: 0 <= k <= j ==> sumx[k] == PrefixWX(xs, ws, k) && sumw[k] == PrefixW(ws, k)
    {
      sumx := sumx + [sumx[j] + ws[j] * xs[j]];
      sumw := sumw + [sumw[j] + ws[j]];
      j := j + 1;
    }
    hide Achieved;
    hide Beaten;
    b := Best(-FLT_MAX, max, -1, -1, 0);
    NothingAchieved(b, xs, ws);
    var i1 := 0;
    while i1 <= n
      invariant i1 <= n + 1 && Achieved(b, xs, ws) && b.score >= -FLT_MAX && AllBeaten(b, xs, ws, i1, 0)
    {
      var i2 := i1;
      while i2 <= n
        invariant i1 <= i2 <= n + 1 && Achieved(b, xs, ws) && b.score >= -FLT_MAX && AllBeaten(b, xs, ws, i1, i2)
      {
        ghost var before := b;
        b := TryBoth(b, xs, ws, sumx, sumw, i1, i2);
        AllStillBeaten(before, b, xs, ws, i1, i2);
        i2 := i2 + 1;
      }
      i1 := i1 + 1;
    }
  }

  lemma NothingAchieved(b: Best, xs: seq<real>, ws: seq<real>)
    requires |xs| == |ws| && b.i1 < 0 && b.score == -FLT_MAX
    ensures Achieved(b, xs, ws)
  {
  }

  lemma AllStillBeaten(b: Best, r: Best, xs: seq<real>, ws: seq<real>, c1: nat, c2: nat)
    requires |xs| == |ws| && AllBeaten(b, xs, ws, c1, c2) && r.score >= b.score && c1 <= c2 <= |xs|
    requires Beaten(r, xs, ws, c1, c2, UP) && Beaten(r, xs, ws, c1, c2, DOWN)
    ensures AllBeaten(r, xs, ws, c1, c2 + 1)
  {
    hide Beaten;
    forall i1: nat, i2: nat | i1 <= i2 <= |xs| && (i1 < c1 || (i1 == c1 && i2 < c2 + 1))
      ensures Beaten(r, xs, ws, i1, i2, UP) && Beaten(r, xs, ws, i1, i2, DOWN)
    {
      if !(i1 == c1 && i2 == c2) {
        StillBeaten(b, r, xs, ws, i1, i2, UP);
        StillBeaten(b, r, xs, ws, i1, i2, DOWN);
      }
    }
  }
}
