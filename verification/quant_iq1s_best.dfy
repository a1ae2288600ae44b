/** The IQ1_S search finds the least weighted squared error over all assignments, both level triples and all real
    scales. */
module QuantIq1sBest {
  import opened QuantSums
  import opened QuantIq1s

  /** Sum of the weights decides whether a denominator is positive: no level is zero. */
  lemma LevelBounds(t: Levels, k: nat)
    requires IsLevels(t)
    ensures 0.0 < DELTA * DELTA <= Times(t.Of(k), t.Of(k)) <= 2.0
  {
  }

  lemma {:induction false} DenominatorBounds(ws: seq<real>, a: seq<nat>, t: Levels, n: nat)
    requires |ws| == |a| && n <= |ws| && IsLevels(t) && forall i :: 0 <= i < |ws| ==> ws[i] >= 0.0
    ensures Times(DELTA * DELTA, PrefixW(ws, n)) <= SumQQ(ws, a, t, n) <= Times(2.0, PrefixW(ws, n))
            && PrefixW(ws, n) >= 0.0
  {
    if n > 0 {
      DenominatorBounds(ws, a, t, n - 1);
      var q := t.Of(a[n - 1]);
      LevelBounds(t, a[n - 1]);
      WeightBounds(ws[n - 1], Times(q, q), PrefixW(ws, n - 1));
    }
  }

  lemma WeightBounds(w: real, z: real, before: real)
    requires w >= 0.0 && DELTA * DELTA <= z <= 2.0
    ensures Times(DELTA * DELTA, before) + Times(DELTA * DELTA, w) == Times(DELTA * DELTA, before + w)
    ensures Times(2.0, before) + Times(2.0, w) == Times(2.0, before + w)
    ensures Times(DELTA * DELTA, w) <= Times(w, z) <= Times(2.0, w)
  {
    assert w * (z - DELTA * DELTA) >= 0.0 && w * (2.0 - z) >= 0.0;
  }

  lemma {:induction false} ErrorNonnegative(xs: seq<real>, ws: seq<real>, a: seq<nat>, t: Levels, s: real, n: nat)
    requires Data(xs, ws) && |a| == |xs| && n <= |xs|
    ensures Error(xs, ws, a, t, s, n) >= 0.0
  {
    if n > 0 {
      ErrorNonnegative(xs, ws, a, t, s, n - 1);
      var d := xs[n - 1] - s * t.Of(a[n - 1]);
      SquareNonnegative(d);
      TermMonotone(ws[n - 1], 0.0, Square(d));
    }
  }

  lemma SquareNonnegative(d: real)
    ensures Square(d) >= 0.0
  {
  }

  /** A score that beats q*q/p bounds the vertex of the parabola. */
  lemma ScoreBoundsVertex(score: real, q: real, p: real)
    requires p > 0.0 && Times(q, q) <= Times(score, p)
    ensures (q / p) * q <= score
  {
    var v := q / p;
    assert v * p == q;
    assert (v * q) * p == q * q;
    if v * q > score { assert (v * q - score) * p > 0.0; }
  }

  lemma SplitNotBetter(b: Best, xs: seq<real>, ws: seq<real>, i1: nat, i2: nat, t: Levels, s: real)
    requires |xs| == |ws| && i1 <= i2 <= |xs| && Beaten(b, xs, ws, i1, i2, t) && Denominator(xs, ws, i1, i2, t) > 0.0
    ensures Error(xs, ws, Split(|xs|, i1, i2), t, s, |xs|) >= SumUV(ws, xs, xs, |xs|) - b.score
  {
    hide Parabola;
    hide Times;
    var q, p := Numerator(xs, ws, i1, i2, t), Denominator(xs, ws, i1, i2, t);
    ErrorIsParabola(xs, ws, Split(|xs|, i1, i2), t, s, |xs|);
    VertexIsLeast(SumUV(ws, xs, xs, |xs|), q, p, s);
    ScoreBoundsVertex(b.score, q, p);
  }

  lemma BestError(b: Best, xs: seq<real>, ws: seq<real>)
    requires |xs| == |ws| && Achieved(b, xs, ws) && b.i1 >= 0
    ensures Error(xs, ws, Split(|xs|, b.i1, b.i2), LevelsOf(b.shift), b.scale, |xs|)
            == SumUV(ws, xs, xs, |xs|) - b.score
  {
    hide Parabola;
    var t := LevelsOf(b.shift);
    var q, p := Numerator(xs, ws, b.i1, b.i2, t), Denominator(xs, ws, b.i1, b.i2, t);
    ErrorIsParabola(xs, ws, Split(|xs|, b.i1, b.i2), t, b.scale, |xs|);
    VertexError(SumUV(ws, xs, xs, |xs|), q, p, b.scale);
  }

  lemma VertexError(x: real, q: real, p: real, scale: real)
    requires p > 0.0 && Times(scale, p) == q
    ensures Parabola(x, q, p, scale) == x - Times(scale, q)
  {
    ScaleIsVertex(scale, q, p);
    VertexIsLeast(x, q, p, scale);
  }

  lemma ScaleIsVertex(scale: real, q: real, p: real)
    requires p > 0.0 && Times(scale, p) == q
    ensures scale == q / p
  {
    var v := q / p;
    assert v * p == q;
    assert (v - scale) * p == 0.0;
  }

  /** The result of the search is as good as any assignment with a scale that is not negative. */
  lemma BestBeatsPositive(b: Best, xs: seq<real>, ws: seq<real>, a: seq<nat>, t: Levels, s: real)
    requires Data(xs, ws) && Ascending(xs) && Codes(a, |xs|) && IsLevels(t) && s >= 0.0
    requires Achieved(b, xs, ws) && b.i1 >= 0 && AllBeaten(b, xs, ws, |xs| + 1, 0)
    ensures Error(xs, ws, Split(|xs|, b.i1, b.i2), LevelsOf(b.shift), b.scale, |xs|) <= Error(xs, ws, a, t, s, |xs|)
  {
    hide NearestSplit;
    hide Times;
    SplitsSuffice(xs, ws, a, t, s, |xs|);
    NearestIsSplit(xs, t, s);
    var c, d := Cut(xs, (s * t.lo + s * t.mid) / 2.0, |xs|), Cut(xs, (s * t.mid + s * t.hi) / 2.0, |xs|);
    BestError(b, xs, ws);
    PositiveDenominator(b, xs, ws, c, d, t);
    assert Beaten(b, xs, ws, c, d, t);
    SplitNotBetter(b, xs, ws, c, d, t, s);
  }

  lemma PositiveDenominator(b: Best, xs: seq<real>, ws: seq<real>, i1: nat, i2: nat, t: Levels)
    requires Data(xs, ws) && Achieved(b, xs, ws) && b.i1 >= 0 && i1 <= i2 <= |xs| && IsLevels(t)
    ensures Denominator(xs, ws, i1, i2, t) > 0.0
  {
    DenominatorBounds(ws, Split(|ws|, b.i1, b.i2), LevelsOf(b.shift), |ws|);
    DenominatorBounds(ws, Split(|ws|, i1, i2), t, |ws|);
  }

  lemma MirrorIsLevels(t: Levels)
    requires IsLevels(t)
    ensures IsLevels(Mirror(t)) && Mirror(Mirror(t)) == t
  {
  }

  /** The search is exact: no assignment of the three codes, with either triple of levels and any real scale, has a
      smaller weighted squared error. Negative scales are covered by the mirrored triple. */
  lemma SearchIsExact(b: Best, xs: seq<real>, ws: seq<real>, a: seq<nat>, t: Levels, s: real)
    requires Data(xs, ws) && Ascending(xs) && Codes(a, |xs|) && IsLevels(t)
    requires Achieved(b, xs, ws) && b.i1 >= 0 && AllBeaten(b, xs, ws, |xs| + 1, 0)
    ensures Error(xs, ws, Split(|xs|, b.i1, b.i2), LevelsOf(b.shift), b.scale, |xs|) <= Error(xs, ws, a, t, s, |xs|)
  {
    hide AllBeaten;
    hide Achieved;
    hide Error;
    BestIsSplit(b, xs, ws);
    if s >= 0.0 {
      BestBeatsPositive(b, xs, ws, a, t, s);
    } else {
      MirrorIsLevels(t);
      MirrorSame(xs, ws, a, t, s, |xs|);
      BestBeatsPositive(b, xs, ws, MirrorCodes(a), Mirror(t), -s);
    }
  }

  lemma BestIsSplit(b: Best, xs: seq<real>, ws: seq<real>)
    requires |xs| == |ws| && Achieved(b, xs, ws) && b.i1 >= 0
    ensures 0 <= b.i1 <= b.i2 <= |xs| && (b.shift == 1 || b.shift == -1)
  {
  }

  /** The search finds nothing exactly when all weights are zero. */
  lemma NothingFound(b: Best, xs: seq<real>, ws: seq<real>)
    requires Data(xs, ws) && Achieved(b, xs, ws) && AllBeaten(b, xs, ws, |xs| + 1, 0)
    ensures b.i1 < 0 <==> PrefixW(ws, |ws|) == 0.0
  {
    DenominatorBounds(ws, Split(|ws|, 0, 0), UP, |ws|);
    if b.i1 < 0 {
      assert Beaten(b, xs, ws, 0, 0, UP);
      var q, p := Numerator(xs, ws, 0, 0, UP), Denominator(xs, ws, 0, 0, UP);
      if p > 0.0 { NegativeScoreLoses(q, p); }
    } else {
      DenominatorBounds(ws, Split(|ws|, b.i1, b.i2), LevelsOf(b.shift), |ws|);
    }
  }

  lemma NegativeScoreLoses(q: real, p: real)
    requires p > 0.0
    ensures Times(q, q) > Times(-FLT_MAX, p)
  {
  }

  lemma {:induction false} NoWeightNoError(xs: seq<real>, ws: seq<real>, a: seq<nat>, t: Levels, s: real, n: nat)
    requires Data(xs, ws) && |a| == |xs| && n <= |xs| && PrefixW(ws, n) == 0.0
    ensures Error(xs, ws, a, t, s, n) == 0.0
  {
    if n > 0 {
      WeightsNonnegative(ws, n - 1);
      assert ws[n - 1] == 0.0;
      NoWeightNoError(xs, ws, a, t, s, n - 1);
      ZeroTerm(xs[n - 1], t.Of(a[n - 1]), s);
    }
  }

  lemma ZeroTerm(x: real, q: real, s: real)
    ensures Term(x, 0.0, q, s) == 0.0
  {
  }

  lemma {:induction false} WeightsNonnegative(ws: seq<real>, n: nat)
    requires n <= |ws| && forall i :: 0 <= i < |ws| ==> ws[i] >= 0.0
    ensures PrefixW(ws, n) >= 0.0
  {
    if n > 0 { WeightsNonnegative(ws, n - 1); }
  }

  // ---------------------------------------------------------------- from sorted values back to the block

  /** idx lists 0..n-1 in some order. */
  ghost predicate Permutation(idx: seq<nat>, n: nat) {
    |idx| == n && (forall j :: 0 <= j < n ==> idx[j] < n) && forall i, j :: 0 <= i < j < n ==> idx[i] != idx[j]
  }

  function Picked<T>(s: seq<T>, idx: seq<nat>): (r: seq<T>)
    requires forall j :: 0 <= j < |idx| ==> idx[j] < |s|
    ensures |r| == |idx| && forall j :: 0 <= j < |r| ==> r[j] == s[idx[j]]
  {
    seq(|idx|, j requires 0 <= j < |idx| => s[idx[j]])
  }

  function Sum(f: seq<real>): real {
    if f == [] then 0.0 else Sum(f[..|f| - 1]) + f[|f| - 1]
  }

  lemma {:induction false} SumAppend(f: seq<real>, g: seq<real>)
    ensures Sum(f + g) == Sum(f) + Sum(g)
    decreases |g|
  {
    if g == [] {
      assert f + g == f;
    } else {
      assert (f + g)[..|f + g| - 1] == f + g[..|g| - 1];
      SumAppend(f, g[..|g| - 1]);
    }
  }

  /** An injective list of all numbers below n contains n-1. */
  lemma {:induction false} LastIsListed(idx: seq<nat>, n: nat)
    requires Permutation(idx, n) && n > 0
    ensures n - 1 in idx
  {
    if n - 1 !in idx {
      var s := set j | 0 <= j < n :: idx[j];
      ImageSize(idx, n);
      CountBelow(n - 1);
      assert s <= Below(n - 1);
      SubsetSize(s, Below(n - 1));
    }
  }

  lemma {:induction false} ImageSize(idx: seq<nat>, m: nat)
    requires m <= |idx| && forall i, j :: 0 <= i < j < |idx| ==> idx[i] != idx[j]
    ensures |(set j | 0 <= j < m :: idx[j])| == m
  {
    if m > 0 {
      ImageSize(idx, m - 1);
      assert (set j | 0 <= j < m :: idx[j]) == (set j | 0 <= j < m - 1 :: idx[j]) + {idx[m - 1]};
    }
  }

  ghost function Below(n: nat): set<nat> {
    if n == 0 then {} else Below(n - 1) + {n - 1}
  }

  lemma {:induction false} CountBelow(n: nat)
    ensures |Below(n)| == n && forall k: nat :: k in Below(n) <==> k < n
  {
    if n > 0 { CountBelow(n - 1); }
  }

  lemma {:induction false} SubsetSize(a: set<nat>, b: set<nat>)
    requires a <= b
    ensures |a| <= |b|
    decreases |a|
  {
    if a != {} {
      var x :| x in a;
      SubsetSize(a - {x}, b - {x});
    }
  }

  /** A sum does not depend on the order of its terms. */
  lemma {:induction false} SumPermuted(f: seq<real>, idx: seq<nat>)
    requires Permutation(idx, |f|)
    ensures Sum(Picked(f, idx)) == Sum(f)
    decreases |f|
  {
    var n := |f|;
    if n > 0 {
      LastIsListed(idx, n);
      var j :| 0 <= j < n && idx[j] == n - 1;
      var rest := idx[..j] + idx[j + 1..];
      RestIsPermutation(idx, n, j);
      SumPermuted(f[..n - 1], rest);
      TakeOut(f, idx, j);
    }
  }

  lemma RestIsPermutation(idx: seq<nat>, n: nat, j: nat)
    requires Permutation(idx, n) && j < n && idx[j] == n - 1
    ensures Permutation(idx[..j] + idx[j + 1..], n - 1)
  {
    var rest := idx[..j] + idx[j + 1..];
    forall i | 0 <= i < n - 1 ensures rest[i] == idx[if i < j then i else i + 1] {}
  }

  /** Moving the last value to the end of the sum. */
  lemma TakeOut(f: seq<real>, idx: seq<nat>, j: nat)
    requires Permutation(idx, |f|) && j < |f| && idx[j] == |f| - 1 && Permutation(idx[..j] + idx[j + 1..], |f| - 1)
    ensures Sum(Picked(f, idx)) == Sum(Picked(f[..|f| - 1], idx[..j] + idx[j + 1..])) + f[|f| - 1]
  {
    var last, u, v := f[|f| - 1], Picked(f, idx)[..j], Picked(f, idx)[j + 1..];
    hide Permutation;
    SumOfThree(Picked(f, idx), j);
    assert Picked(f, idx)[j] == last;
    RestPicked(f, idx, j);
    SumAppend(u, v);
  }

  lemma RestPicked(f: seq<real>, idx: seq<nat>, j: nat)
    requires Permutation(idx, |f|) && j < |f| && idx[j] == |f| - 1 && Permutation(idx[..j] + idx[j + 1..], |f| - 1)
    ensures Picked(f[..|f| - 1], idx[..j] + idx[j + 1..]) == Picked(f, idx)[..j] + Picked(f, idx)[j + 1..]
  {
    var rest := idx[..j] + idx[j + 1..];
    forall i | 0 <= i < |f| - 1 ensures rest[i] == idx[if i < j then i else i + 1] {}
  }

  lemma SumOfThree(g: seq<real>, j: nat)
    requires j < |g|
    ensures Sum(g) == Sum(g[..j]) + g[j] + Sum(g[j + 1..])
  {
    assert g == (g[..j] + [g[j]]) + g[j + 1..];
    SumAppend(g[..j] + [g[j]], g[j + 1..]);
    SumAppend(g[..j], [g[j]]);
    assert [g[j]][..0] == [];
  }

  function Terms(xs: seq<real>, ws: seq<real>, a: seq<nat>, t: Levels, s: real): (r: seq<real>)
    requires |xs| == |ws| == |a|
    ensures |r| == |xs|
  {
    seq(|xs|, i requires 0 <= i < |xs| => Term(xs[i], ws[i], t.Of(a[i]), s))
  }

  lemma {:induction false} ErrorIsSum(xs: seq<real>, ws: seq<real>, a: seq<nat>, t: Levels, s: real, n: nat)
    requires |xs| == |ws| == |a| && n <= |xs|
    ensures Error(xs, ws, a, t, s, n) == Sum(Terms(xs, ws, a, t, s)[..n])
  {
    hide Term;
    if n > 0 {
      ErrorIsSum(xs, ws, a, t, s, n - 1);
      var f := Terms(xs, ws, a, t, s);
      assert f[..n][..n - 1] == f[..n - 1];
    }
  }

  /** Sorting values, weights and codes together does not change the error. */
  lemma ErrorPermuted(xs: seq<real>, ws: seq<real>, a: seq<nat>, t: Levels, s: real, idx: seq<nat>)
    requires |xs| == |ws| == |a| && Permutation(idx, |xs|)
    ensures Error(Picked(xs, idx), Picked(ws, idx), Picked(a, idx), t, s, |xs|) == Error(xs, ws, a, t, s, |xs|)
  {
    var f := Terms(xs, ws, a, t, s);
    var g := Terms(Picked(xs, idx), Picked(ws, idx), Picked(a, idx), t, s);
    ErrorIsSum(xs, ws, a, t, s, |xs|);
    ErrorIsSum(Picked(xs, idx), Picked(ws, idx), Picked(a, idx), t, s, |xs|);
    assert g == Picked(f, idx);
    assert f[..|xs|] == f && g[..|xs|] == g;
    SumPermuted(f, idx);
  }

  // ---------------------------------------------------------------- one block

  ghost predicate AllTiny(xb: seq<real>) {
    forall j :: 0 <= j < |xb| ==> Magnitude(xb[j]) < TINY
  }

  method Largest(xb: seq<real>) returns (max: real)
    requires |xb| > 0
    ensures (exists j :: 0 <= j < |xb| && Magnitude(xb[j]) == max) && forall j :: 0 <= j < |xb| ==>
            Magnitude(xb[j]) <= max
  {
    max := Magnitude(xb[0]);
    var i := 1;
    while i < |xb|
      invariant 1 <= i <= |xb|
      invariant (exists j :: 0 <= j < i && Magnitude(xb[j]) == max) && forall j :: 0 <= j < i ==>
                Magnitude(xb[j]) <= max
    {
      max := if max > Magnitude(xb[i]) then max else Magnitude(xb[i]);
      i := i + 1;
    }
  }

  /** Gives one code to the values at sorted positions from..to. */
  method Fill(L: array<nat>, idx: seq<nat>, from: nat, to: nat, code: nat)
    requires Permutation(idx, L.Length) && from <= to <= L.Length
    modifies L
    ensures forall k :: 0 <= k < L.Length ==> L[idx[k]] == if from <= k < to then code else old(L[idx[k]])
  {
    var j := from;
    while j < to
      invariant from <= j <= to
      invariant forall k :: 0 <= k < L.Length ==> L[idx[k]] == if from <= k < j then code else old(L[idx[k]])
    {
      L[idx[j]] := code;
      j := j + 1;
    }
  }

  method Flip(L: array<nat>)
    requires Codes(L[..], L.Length)
    modifies L
    ensures L[..] == MirrorCodes(old(L[..]))
  {
    var j := 0;
    while j < L.Length
      invariant j <= L.Length
      invariant forall k :: 0 <= k < L.Length ==> L[k] == if k < j then 2 - old(L[k]) else old(L[k])
    {
      assert old(L[..])[j] <= 2;
      L[j] := 2 - L[j];
      j := j + 1;
    }
  }

  method Clear(L: array<nat>)
    modifies L
    ensures forall k :: 0 <= k < L.Length ==> L[k] == 1
  {
    var j := 0;
    while j < L.Length
      invariant j <= L.Length && forall k :: 0 <= k < j ==> L[k] == 1
    {
      L[j] := 1;
      j := j + 1;
    }
  }

  /** No codes, levels or scale are better than those found. */
  ghost predicate Optimal(xb: seq<real>, weight: seq<real>, a: seq<nat>, t: Levels, s: real)
    requires |xb| == |weight| == |a|
  {
    forall c: seq<nat>, u: Levels, r: real :: Codes(c, |xb|) && IsLevels(u) ==>
      Error(xb, weight, a, t, s, |xb|) <= Error(xb, weight, c, u, r, |xb|)
  }

  ghost predicate Found(b: Best, xs: seq<real>, ws: seq<real>)
    requires |xs| == |ws|
  {
    Achieved(b, xs, ws) && b.i1 >= 0 && AllBeaten(b, xs, ws, |xs| + 1, 0)
  }

  lemma FoundIsOptimal(b: Best, xb: seq<real>, weight: seq<real>, idx: seq<nat>, a: seq<nat>)
    requires Data(xb, weight) && Permutation(idx, |xb|) && Ascending(Picked(xb, idx))
    requires Found(b, Picked(xb, idx), Picked(weight, idx))
    requires |a| == |xb| && Picked(a, idx) == Split(|xb|, b.i1, b.i2)
    ensures Optimal(xb, weight, a, LevelsOf(b.shift), b.scale)
  {
    hide Error;
    hide AllBeaten;
    hide Achieved;
    var xs, ws := Picked(xb, idx), Picked(weight, idx);
    forall c: seq<nat>, u: Levels, r: real | Codes(c, |xb|) && IsLevels(u)
      ensures Error(xb, weight, a, LevelsOf(b.shift), b.scale, |xb|) <= Error(xb, weight, c, u, r, |xb|)
    {
      ErrorPermuted(xb, weight, a, LevelsOf(b.shift), b.scale, idx);
      ErrorPermuted(xb, weight, c, u, r, idx);
      SearchIsExact(b, xs, ws, Picked(c, idx), u, r);
    }
  }

  lemma MirrorOptimal(xb: seq<real>, weight: seq<real>, a: seq<nat>, shift: int, s: real)
    requires |xb| == |weight| && Codes(a, |xb|) && (shift == 1 || shift == -1)
    requires Optimal(xb, weight, a, LevelsOf(shift), s)
    ensures Optimal(xb, weight, MirrorCodes(a), LevelsOf(-shift), -s)
  {
    hide Error;
    MirrorSame(xb, weight, a, LevelsOf(shift), s, |xb|);
    assert Mirror(LevelsOf(shift)) == LevelsOf(-shift);
  }

  lemma NoWeightIsOptimal(xb: seq<real>, weight: seq<real>, a: seq<nat>, t: Levels, s: real)
    requires Data(xb, weight) && |a| == |xb| && PrefixW(weight, |weight|) == 0.0
    ensures Optimal(xb, weight, a, t, s)
  {
    NoWeightNoError(xb, weight, a, t, s, |xb|);
    forall c: seq<nat>, u: Levels, r: real | Codes(c, |xb|) && IsLevels(u)
      ensures Error(xb, weight, a, t, s, |xb|) <= Error(xb, weight, c, u, r, |xb|)
    {
      ErrorNonnegative(xb, weight, c, u, r, |xb|);
    }
  }

  lemma {:induction false} PrefixWIsSum(ws: seq<real>, n: nat)
    requires n <= |ws|
    ensures PrefixW(ws, n) == Sum(ws[..n])
  {
    if n > 0 {
      PrefixWIsSum(ws, n - 1);
      assert ws[..n][..n - 1] == ws[..n - 1];
    }
  }

  lemma WeightPermuted(ws: seq<real>, idx: seq<nat>)
    requires Permutation(idx, |ws|)
    ensures PrefixW(Picked(ws, idx), |ws|) == PrefixW(ws, |ws|)
  {
    PrefixWIsSum(ws, |ws|);
    PrefixWIsSum(Picked(ws, idx), |ws|);
    assert ws[..|ws|] == ws && Picked(ws, idx)[..|ws|] == Picked(ws, idx);
    SumPermuted(ws, idx);
  }

  lemma NothingFoundMeans(b: Best, xb: seq<real>, weight: seq<real>, idx: seq<nat>)
    requires Data(xb, weight) && Permutation(idx, |xb|) && b.i1 < 0
    requires Achieved(b, Picked(xb, idx), Picked(weight, idx))
             && AllBeaten(b, Picked(xb, idx), Picked(weight, idx), |xb| + 1, 0)
    ensures PrefixW(weight, |weight|) == 0.0
  {
    NothingFound(b, Picked(xb, idx), Picked(weight, idx));
    WeightPermuted(weight, idx);
  }

  /** Codes, scale and shift of one block, given the order that qsort leaves in idx: the scale is never negative, and
      unless every value is below the cutoff the result is the least weighted squared error there is. */
  method QuantizeBlock(xb: seq<real>, weight: seq<real>, idx: seq<nat>, L: array<nat>) returns (scale: real, shift: int)
    requires |xb| > 0 && Data(xb, weight) && L.Length == |xb|
    requires Permutation(idx, |xb|) && Ascending(Picked(xb, idx))
    modifies L
    ensures Codes(L[..], |xb|) && scale >= 0.0 && (shift == 1 || shift == -1)
    ensures !AllTiny(xb) ==>
              var d := shift as real / 8.0; Optimal(xb, weight, L[..], Levels(d - 1.0, d, d + 1.0), scale)
    ensures AllTiny(xb) ==> scale == 0.0 && shift == 1 && forall k :: 0 <= k < |xb| ==> L[k] == 1
  {
    hide Optimal;
    hide Error;
    hide Achieved;
    hide AllBeaten;
    var max := Largest(xb);
    if max < TINY {
      Clear(L);
      return 0.0, 1;
    }
    ghost var xs, ws := Picked(xb, idx), Picked(weight, idx);
    var b := Search(Picked(xb, idx), Picked(weight, idx), max);
    if b.i1 < 0 {
      Clear(L);
      NothingFoundMeans(b, xb, weight, idx);
      NoWeightIsOptimal(xb, weight, L[..], UP, 0.0);
      LevelsAre(1, 0);
      return 0.0, 1;
    }
    BestIsSplit(b, xs, ws);
    Fill(L, idx, 0, b.i1, 0);
    Fill(L, idx, b.i1, b.i2, 1);
    Fill(L, idx, b.i2, L.Length, 2);
    SplitWritten(L[..], idx, b.i1, b.i2);
    FoundIsOptimal(b, xb, weight, idx, L[..]);
    scale, shift := b.scale, b.shift;
    if scale < 0.0 {
      MirrorOptimal(xb, weight, L[..], shift, scale);
      Flip(L);
      scale, shift := -scale, -shift;
    }
    LevelsAre(shift, 0);
  }

  lemma SplitWritten(a: seq<nat>, idx: seq<nat>, i1: nat, i2: nat)
    requires Permutation(idx, |a|) && i1 <= i2 <= |a|
    requires forall k :: 0 <= k < |a| ==> a[idx[k]] == if k < i1 then 0 else if k < i2 then 1 else 2
    ensures Picked(a, idx) == Split(|a|, i1, i2) && Codes(a, |a|)
  {
    forall j | 0 <= j < |a| ensures a[j] <= 2 {
      EveryNumberListed(idx, |a|, j);
      var k :| 0 <= k < |a| && idx[k] == j;
    }
  }

  lemma {:induction false} EveryNumberListed(idx: seq<nat>, n: nat, j: nat)
    requires Permutation(idx, n) && j < n
    ensures exists k :: 0 <= k < n && idx[k] == j
    decreases n
  {
    LastIsListed(idx, n);
    var l :| 0 <= l < n && idx[l] == n - 1;
    if j < n - 1 {
      RestIsPermutation(idx, n, l);
      var rest := idx[..l] + idx[l + 1..];
      EveryNumberListed(rest, n - 1, j);
      var k :| 0 <= k < n - 1 && rest[k] == j;
      assert idx[if k < l then k else k + 1] == j;
    }
  }
}
