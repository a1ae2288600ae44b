/** make_q3_quants and make_qp_quants (CGGML/ggml-quants.c): the loops around the coordinate descent. */
module QuantDescentRun {
  import opened QuantSums
  import opened QuantDescent

  /** GROUP_MAX_EPS */
  const EPS := 0.000000000000001

  // ---------------------------------------------------------------- the descent

  method VisitOne(p: Problem, L: array<int>, i: nat, lx: real, l2: real, changed: nat)
    returns (lx': real, l2': real, changed': nat)
    requires Valid(p) && L.Length == |p.xs| && i < |p.xs|
    modifies L
    ensures State(L[..], lx', l2', changed') == Visit(p, State(old(L[..]), lx, l2, changed), i)
  {
    hide Times;
    hide Gains;
    hide Proposal;
    lx', l2', changed' := lx, l2, changed;
    var w, x, l := p.ws[i], p.xs[i], L[i] as real;
    var slx, sl2 := lx - Times(w, Times(l, x)), l2 - Times(w, Times(l, l));
    if slx > 0.0 && (p.rule.Signed? || sl2 > 0.0) {
      var c := p.rule.Limit(p.round(Proposal(x, sl2, slx)));
      if c != L[i] {
        slx := slx + Times(w, Times(c as real, x));
        sl2 := sl2 + Times(w, Times(c as real, c as real));
        if (p.rule.Upper? || sl2 > 0.0) && Gains(slx, sl2, lx, l2) {
          L[i] := c;
          lx', l2', changed' := slx, sl2, changed + 1;
        }
      }
    }
  }

  /** Up to five sweeps in place. */
  method Descend(p: Problem, L: array<int>, sumlx: real, suml2: real) returns (lx: real, l2: real)
    requires Valid(p) && L.Length == |p.xs|
    modifies L
    ensures var r := Refine(p, State(old(L[..]), sumlx, suml2, 0), 5); L[..] == r.codes && lx == r.lx && l2 == r.l2
  {
    hide Visit;
    ghost var result := Refine(p, State(L[..], sumlx, suml2, 0), 5);
    lx, l2 := sumlx, suml2;
    var itry, changed := 0, 0;
    while itry < 5
      invariant 0 <= itry <= 5
      invariant result == Refine(p, State(L[..], lx, l2, changed), 5 - itry)
    {
      ghost var before := State(L[..], lx, l2, changed);
      changed := 0;
      var i := 0;
      while i < |p.xs|
        invariant i <= |p.xs| && State(L[..], lx, l2, changed) == Sweep(p, before, i)
      {
        lx, l2, changed := VisitOne(p, L, i, lx, l2, changed);
        i := i + 1;
      }
      itry := itry + 1;
      if changed == 0 { break; }
    }
  }

  method SumCodes(p: Problem, L: array<int>) returns (sumlx: real, suml2: real)
    requires Valid(p) && L.Length == |p.xs|
    ensures sumlx == SumUV(p.ws, Reals(L[..]), p.xs, |p.xs|) && suml2 == SumUV(p.ws, Reals(L[..]), Reals(L[..]), |p.xs|)
  {
    hide Times;
    sumlx, suml2 := 0.0, 0.0;
    ghost var q := Reals(L[..]);
    var i := 0;
    while i < |p.xs|
      invariant i <= |p.xs| && q == Reals(L[..])
      invariant sumlx == SumUV(p.ws, q, p.xs, i) && suml2 == SumUV(p.ws, q, q, i)
    {
      var l := L[i] as real;
      assert q[i] == l;
      sumlx := sumlx + Times(p.ws[i], Times(l, p.xs[i]));
      suml2 := suml2 + Times(p.ws[i], Times(l, l));
      i := i + 1;
    }
  }

  method Encode(p: Problem, iscale: real, L: array<int>)
    requires Valid(p) && L.Length == |p.xs|
    modifies L
    ensures L[..] == Codes(p, iscale)
  {
    var i := 0;
    while i < |p.xs|
      invariant i <= |p.xs| && forall k :: 0 <= k < i ==> L[k] == CodeOf(p, iscale, p.xs[k])
    {
      L[i] := CodeOf(p, iscale, p.xs[i]);
      i := i + 1;
    }
  }

  method AddAll(L: array<int>, amount: int)
    modifies L
    ensures L[..] == Shifted(old(L[..]), amount)
  {
    var i := 0;
    while i < L.Length
      invariant i <= L.Length && forall k :: 0 <= k < L.Length ==>
                L[k] == if k < i then old(L[k]) + amount else old(L[k])
    {
      L[i] := L[i] + amount;
      i := i + 1;
    }
  }

  function Shifted(codes: seq<int>, amount: int): (r: seq<int>)
    ensures |r| == |codes| && forall k :: 0 <= k < |r| ==> r[k] == codes[k] + amount
  {
    seq(|codes|, k requires 0 <= k < |codes| => codes[k] + amount)
  }

  method Zero(L: array<int>)
    modifies L
    ensures forall k :: 0 <= k < L.Length ==> L[k] == 0
  {
    var i := 0;
    while i < L.Length
      invariant i <= L.Length && forall k :: 0 <= k < i ==> L[k] == 0
    {
      L[i] := 0;
      i := i + 1;
    }
  }

  // ---------------------------------------------------------------- make_q3_quants

  /** The first value of largest magnitude. */
  function Peak(xs: seq<real>, n: nat): real
    requires n <= |xs|
  {
    if n == 0 then 0.0 else if Magnitude(xs[n - 1]) > Magnitude(Peak(xs, n - 1)) then xs[n - 1] else Peak(xs, n - 1)
  }

  function Squares(xs: seq<real>): (r: seq<real>)
    ensures |r| == |xs| && forall i :: 0 <= i < |r| ==> r[i] == Times(xs[i], xs[i])
  {
    seq(|xs|, i requires 0 <= i < |xs| => Times(xs[i], xs[i]))
  }

  function Q3(xs: seq<real>, nmax: nat, round: real -> int): Problem {
    Problem(xs, Squares(xs), Signed(nmax), round)
  }

  lemma Q3Valid(xs: seq<real>, nmax: nat, round: real -> int)
    requires nmax >= 1 && Rounding(round)
    ensures Valid(Q3(xs, nmax, round))
  {
  }

  function InverseScale(xs: seq<real>, nmax: nat): real
    requires Magnitude(Peak(xs, |xs|)) >= EPS
  {
    -(nmax as real) / Peak(xs, |xs|)
  }

  lemma InverseScaleSign(xs: seq<real>, nmax: nat)
    requires nmax >= 1 && Magnitude(Peak(xs, |xs|)) >= EPS
    ensures InverseScale(xs, nmax) != 0.0
    ensures Peak(xs, |xs|) > 0.0 <==> InverseScale(xs, nmax) < 0.0
  {
    var v := InverseScale(xs, nmax);
    assert v * Peak(xs, |xs|) == -(nmax as real);
  }

  /** The refined state of a call with do_rmse. */
  function Q3Result(xs: seq<real>, nmax: nat, round: real -> int): State
    requires Magnitude(Peak(xs, |xs|)) >= EPS
  {
    var p := Q3(xs, nmax, round);
    Refine(p, Start(p, InverseScale(xs, nmax)), 5)
  }

  method FindPeak(xs: seq<real>) returns (max: real, amax: real)
    ensures max == Peak(xs, |xs|) && amax == Magnitude(max)
  {
    var i := 0;
    max, amax := 0.0, 0.0;
    while i < |xs|
      invariant i <= |xs| && max == Peak(xs, i) && amax == Magnitude(max)
    {
      var ax := Magnitude(xs[i]);
      if ax > amax { amax, max := ax, xs[i]; }
      i := i + 1;
    }
  }

  method MakeQ3(xs: seq<real>, nmax: nat, doRmse: bool, round: real -> int, L: array<int>) returns (scale: real)
    requires nmax >= 1 && Rounding(round) && L.Length == |xs|
    modifies L
    ensures Magnitude(Peak(xs, |xs|)) < EPS ==> scale == 0.0 && forall k :: 0 <= k < |xs| ==> L[k] == 0
    ensures Magnitude(Peak(xs, |xs|)) >= EPS && doRmse ==>
      L[..] == Shifted(Q3Result(xs, nmax, round).codes, nmax) && scale == ScaleOf(Q3Result(xs, nmax, round))
    ensures Magnitude(Peak(xs, |xs|)) >= EPS && !doRmse ==>
      L[..] == Shifted(Codes(Q3(xs, nmax, round), InverseScale(xs, nmax)), nmax)
        && scale * InverseScale(xs, nmax) == 1.0
  {
    hide Refine;
    hide Rounding;
    hide Peak;
    hide SumUV;
    var max, amax := FindPeak(xs);
    if amax < EPS {
      Zero(L);
      return 0.0;
    }
    var p := Q3(xs, nmax, round);
    Q3Valid(xs, nmax, round);
    InverseScaleSign(xs, nmax);
    var iscale := -(nmax as real) / max;
    Encode(p, iscale, L);
    if doRmse {
      var sumlx, suml2 := SumCodes(p, L);
      sumlx, suml2 := Descend(p, L, sumlx, suml2);
      AddAll(L, nmax);
      return if suml2 > 0.0 then sumlx / suml2 else 0.0;
    }
    AddAll(L, nmax);
    scale := 1.0 / iscale;
  }

  lemma StartExact(p: Problem, iscale: real)
    requires Valid(p)
    ensures Exact(p, Start(p, iscale))
  {
  }

  lemma StartInRange(p: Problem, iscale: real)
    requires Valid(p) && Storable(p) && (p.rule.Upper? ==> iscale >= 0.0)
    ensures InRange(p, Codes(p, iscale))
  {
    hide Times;
    forall k | 0 <= k < |p.xs| && p.rule.Upper? ensures CodeOf(p, iscale, p.xs[k]) >= 0 {
      NonnegativeTimes(iscale, p.xs[k]);
      RoundNonnegative(p.round, Times(iscale, p.xs[k]));
    }
  }

  lemma NonnegativeTimes(a: real, b: real)
    requires a >= 0.0 && b >= 0.0
    ensures Times(a, b) >= 0.0
  {
  }

  /** With do_rmse the codes fit in 0..2*nmax-1, the scale is the best for them, the plain codes do no better with any
      scale, and a positive peak leaves the plain codes as they are. */
  lemma Q3IsSound(xs: seq<real>, nmax: nat, round: real -> int, s: real)
    requires nmax >= 1 && Rounding(round) && Magnitude(Peak(xs, |xs|)) >= EPS
    ensures var p, r, plain := Q3(xs, nmax, round), Q3Result(xs, nmax, round),
            Codes(Q3(xs, nmax, round), InverseScale(xs, nmax));
      && |r.codes| == |xs|
      && (forall k :: 0 <= k < |xs| ==> 0 <= Shifted(r.codes, nmax)[k] <= 2 * nmax - 1)
      && Error(p, r.codes, ScaleOf(r), |xs|) <= Error(p, r.codes, s, |xs|)
      && Error(p, r.codes, ScaleOf(r), |xs|) <= Error(p, plain, s, |xs|)
      && (r.codes != plain ==> Error(p, r.codes, ScaleOf(r), |xs|) < Error(p, plain, s, |xs|))
      && (Peak(xs, |xs|) > 0.0 ==> r.codes == plain)
  {
    hide Refine;
    hide Error;
    hide InverseScale;
    hide Codes;
    hide Peak;
    hide Magnitude;
    var p := Q3(xs, nmax, round);
    var iscale := InverseScale(xs, nmax);
    Q3Valid(xs, nmax, round);
    InverseScaleSign(xs, nmax);
    StartExact(p, iscale);
    StartInRange(p, iscale);
    RefineInRange(p, Start(p, iscale), 5);
    DescentIsSound(p, Start(p, iscale), 5, s);
    if iscale < 0.0 { NegativeScaleNeverMoves(p, iscale, 5); }
  }

  lemma OnlyWhole(round: real -> int, v: real, n: int)
    requires Rounding(round) && n as real - 0.5 < v < n as real + 0.5
    ensures round(v) == n
  {
    assert v - 0.5 <= round(v) as real <= v + 0.5;
  }

  /** The values -4 and 1.49 with four signed codes to either side. */
  lemma StartOfTwo(round: real -> int)
    requires Rounding(round)
    ensures var xs := [-4.0, 1.49];
      && Peak(xs, 2) == -4.0 && InverseScale(xs, 4) == 1.0 && Codes(Q3(xs, 4, round), 1.0) == [-4, 1]
      && Start(Q3(xs, 4, round), 1.0).lx == 259.307949 && Start(Q3(xs, 4, round), 1.0).l2 == 258.2201
  {
    var xs := [-4.0, 1.49];
    assert Peak(xs, 0) == 0.0 && Peak(xs, 1) == -4.0;
    var p := Q3(xs, 4, round);
    OnlyWhole(round, -4.0, -4);
    OnlyWhole(round, 1.49, 1);
    assert Codes(p, 1.0)[0] == -4 && Codes(p, 1.0)[1] == 1;
    var q := Reals([-4, 1]);
    assert q[0] == -4.0 && q[1] == 1.0;
    assert p.ws[0] == 16.0 && p.ws[1] == 2.2201;
    assert SumUV(p.ws, q, xs, 0) == 0.0 && SumUV(p.ws, q, xs, 1) == 256.0;
    assert SumUV(p.ws, q, q, 0) == 0.0 && SumUV(p.ws, q, q, 1) == 256.0;
  }

  /** The first code moves from -4 to -3. */
  lemma FirstOfTwoMoves(p: Problem, st: State)
    requires |p.xs| == |p.ws| == 2 && Rounding(p.round) && p.rule == Signed(4)
    requires p.xs[0] == -4.0 && p.ws[0] == 16.0 && st.codes == [-4, 1] && st.lx == 259.307949 && st.l2 == 258.2201
    ensures Visit(p, st, 0).changed == st.changed + 1
  {
    var v := Proposal(-4.0, 2.2201, 3.307949);
    assert v * 3.307949 == -8.8804;
    assert -3.5 < v < -2.5;
    OnlyWhole(p.round, v, -3);
    assert st.lx - Times(16.0, Times(-4.0, -4.0)) == 3.307949 && st.l2 - Times(16.0, Times(-4.0, -4.0)) == 2.2201;
    assert 3.307949 + Times(16.0, Times(-3.0, -4.0)) == 195.307949
           && 2.2201 + Times(16.0, Times(-3.0, -3.0)) == 146.2201;
    assert Gains(195.307949, 146.2201, 259.307949, 258.2201);
  }

  /** It is the sign that matters: with a negative peak the refinement does change codes. */
  lemma NegativePeakMoves(round: real -> int)
    requires Rounding(round)
    ensures var xs := [-4.0, 1.49];
      && Peak(xs, 2) < 0.0 && Magnitude(Peak(xs, 2)) >= EPS
      && Q3Result(xs, 4, round).codes != Codes(Q3(xs, 4, round), InverseScale(xs, 4))
  {
    hide Visit;
    hide Refine;
    hide SumUV;
    hide Peak;
    hide InverseScale;
    var xs := [-4.0, 1.49];
    var p := Q3(xs, 4, round);
    StartOfTwo(round);
    var st := Start(p, 1.0);
    Q3Valid(xs, 4, round);
    StartExact(p, 1.0);
    assert p.ws[0] == 16.0;
    assert Sweep(p, st, 0) == st;
    FirstOfTwoMoves(p, st);
    assert Sweep(p, st, 1) == Visit(p, st, 0);
    ChangesAddUp(p, st, 1, 2);
    FirstMoveStays(p, st, 5);
  }

  // ---------------------------------------------------------------- make_qp_quants

  function Highest(xs: seq<real>, n: nat): real
    requires n <= |xs|
  {
    if n == 0 then 0.0 else if xs[n - 1] > Highest(xs, n - 1) then xs[n - 1] else Highest(xs, n - 1)
  }

  lemma {:induction false} HighestBounds(xs: seq<real>, n: nat, i: nat)
    requires i < n <= |xs|
    ensures xs[i] <= Highest(xs, n)
  {
    if i < n - 1 { HighestBounds(xs, n - 1, i); }
  }

  ghost predicate QpInput(p: Problem) {
    Valid(p) && p.rule.Upper? && Storable(p) && Highest(p.xs, |p.xs|) >= EPS
  }

  /** The inverse scale of one grid point: nmax steps for the highest value, give or take some tenths of a step. */
  function GridScale(p: Problem, step: int): real
    requires Highest(p.xs, |p.xs|) >= EPS
  {
    (0.1 * step as real + p.rule.nmax as real) / Highest(p.xs, |p.xs|)
  }

  lemma GridScalePositive(p: Problem, step: int)
    requires QpInput(p) && -4 <= step <= 4
    ensures GridScale(p, step) > 0.0
  {
    QuotientPositive(0.1 * step as real + p.rule.nmax as real, Highest(p.xs, |p.xs|));
  }

  /** The weighted squared error of the codes of an inverse scale, decoded with that scale. */
  function GridError(p: Problem, iscale: real): real
    requires |p.xs| == |p.ws| && iscale > 0.0
  {
    Error(p, Codes(p, iscale), 1.0 / iscale, |p.xs|)
  }

  datatype Pick = Pick(iscale: real, mse: real)

  /** The best of the grid points considered first: 0, then -4, -3, -2, -1, 1, 2, 3, 4. */
  function Grid(p: Problem, n: nat): (r: Pick)
    requires QpInput(p) && n <= 9
    ensures r.iscale > 0.0 && r.mse == GridError(p, r.iscale)
  {
    hide Error;
    hide GridScale;
    if n == 0 then
      GridScalePositive(p, 0);
      Pick(GridScale(p, 0), GridError(p, GridScale(p, 0)))
    else
      var before, step := Grid(p, n - 1), n - 5;
      GridScalePositive(p, step);
      if step != 0 && GridError(p, GridScale(p, step)) < before.mse then
        Pick(GridScale(p, step), GridError(p, GridScale(p, step))) else before
  }

  lemma {:induction false} GridIsLeast(p: Problem, n: nat, step: int)
    requires QpInput(p) && n <= 9 && (step == 0 || -4 <= step < n - 4)
    ensures -4 <= step <= 4 && GridScale(p, step) > 0.0 && Grid(p, n).mse <= GridError(p, GridScale(p, step))
  {
    hide GridError;
    hide GridScale;
    GridScalePositive(p, step);
    if n > 0 {
      var j := n - 5;
      GridScalePositive(p, j);
      if step == 0 || step < j { GridIsLeast(p, n - 1, step); }
    }
  }

  /** A later grid point is taken only when it is strictly better. */
  lemma {:induction false} GridStays(p: Problem, m: nat, n: nat)
    requires QpInput(p) && m <= n <= 9
    ensures Grid(p, n) == Grid(p, m) || Grid(p, n).mse < Grid(p, m).mse
  {
    hide GridError;
    hide GridScale;
    if m < n {
      GridStays(p, m, n - 1);
      GridScalePositive(p, n - 5);
    }
  }

  /** The unlimited codes of the first pass are within the limit already. */
  lemma FirstCodesWithinLimit(p: Problem, i: nat)
    requires QpInput(p) && i < |p.xs|
    ensures p.round(Times(GridScale(p, 0), p.xs[i])) <= p.rule.nmax
  {
    var h := Highest(p.xs, |p.xs|);
    HighestBounds(p.xs, |p.xs|, i);
    GridScalePositive(p, 0);
    assert GridScale(p, 0) * h == p.rule.nmax as real;
    TermMonotone(GridScale(p, 0), p.xs[i], h);
    RoundAtMost(p.round, Times(GridScale(p, 0), p.xs[i]), p.rule.nmax);
  }

  lemma RoundAtMost(round: real -> int, v: real, m: int)
    requires Rounding(round) && v <= m as real
    ensures round(v) <= m
  {
    assert round(v) as real <= v + 0.5;
  }

  /** The error of the codes that a scale would give. */
  method ErrorAt(p: Problem, iscale: real) returns (mse: real)
    requires Valid(p) && iscale > 0.0
    ensures mse == GridError(p, iscale)
  {
    hide Term;
    mse := 0.0;
    var i, scale := 0, 1.0 / iscale;
    while i < |p.xs|
      invariant i <= |p.xs| && mse == Error(p, Codes(p, iscale), scale, i)
    {
      mse := mse + Term(p.xs[i], p.ws[i], CodeOf(p, iscale, p.xs[i]) as real, scale);
      i := i + 1;
    }
  }

  /** The first pass, whose codes are not limited. */
  method FirstPass(p: Problem, iscale: real, L: array<int>) returns (mse: real)
    requires QpInput(p) && iscale == GridScale(p, 0) && iscale > 0.0 && L.Length == |p.xs|
    modifies L
    ensures mse == GridError(p, iscale)
  {
    hide Term;
    hide Times;
    hide GridScale;
    mse := 0.0;
    var i, scale := 0, 1.0 / iscale;
    while i < |p.xs|
      invariant i <= |p.xs| && mse == Error(p, Codes(p, iscale), scale, i)
    {
      L[i] := p.round(Times(iscale, p.xs[i]));
      FirstCodesWithinLimit(p, i);
      mse := mse + Term(p.xs[i], p.ws[i], L[i] as real, scale);
      i := i + 1;
    }
  }

  function QpResult(p: Problem): State
    requires QpInput(p)
  {
    Refine(p, Start(p, Grid(p, 9).iscale), 5)
  }

  method MakeQp(p: Problem, L: array<int>) returns (scale: real)
    requires Valid(p) && p.rule.Upper? && Storable(p) && L.Length == |p.xs|
    modifies L
    ensures Highest(p.xs, |p.xs|) < EPS ==> scale == 0.0 && forall k :: 0 <= k < |p.xs| ==> L[k] == 0
    ensures Highest(p.xs, |p.xs|) >= EPS ==> L[..] == QpResult(p).codes && scale == ScaleOf(QpResult(p))
  {
    hide Refine;
    hide GridError;
    hide Rounding;
    var max, i := 0.0, 0;
    while i < |p.xs|
      invariant i <= |p.xs| && max == Highest(p.xs, i)
    {
      if p.xs[i] > max { max := p.xs[i]; }
      i := i + 1;
    }
    if max < EPS {
      Zero(L);
      return 0.0;
    }
    var iscale := PickScale(p, max, L);
    Encode(p, iscale, L);
    var sumlx, suml2 := SumCodes(p, L);
    sumlx, suml2 := Descend(p, L, sumlx, suml2);
    scale := if suml2 > 0.0 then sumlx / suml2 else 0.0;
  }

  method PickScale(p: Problem, max: real, L: array<int>) returns (iscale: real)
    requires QpInput(p) && L.Length == |p.xs| && max == Highest(p.xs, |p.xs|)
    modifies L
    ensures iscale == Grid(p, 9).iscale
  {
    hide GridError;
    hide Rounding;
    iscale := p.rule.nmax as real / max;
    GridScalePositive(p, 0);
    assert iscale == GridScale(p, 0);
    var best := FirstPass(p, iscale, L);
    var step := -4;
    while step <= 4
      invariant -4 <= step <= 5
      invariant Grid(p, step + 4) == Pick(iscale, best)
    {
      if step != 0 {
        var tried := (0.1 * step as real + p.rule.nmax as real) / max;
        GridScalePositive(p, step);
        var mse := ErrorAt(p, tried);
        if mse < best {
          best := mse;
          iscale := tried;
        }
      }
      step := step + 1;
    }
  }

  /** The result does at least as well as each of the nine plain quantisations, and as any scale for the codes it
      returns, which fit in 0..nmax. */
  lemma QpIsSound(p: Problem, step: int, s: real)
    requires QpInput(p) && -4 <= step <= 4
    ensures var r := QpResult(p);
      && |r.codes| == |p.xs| && InRange(p, r.codes)
      && Error(p, r.codes, ScaleOf(r), |p.xs|) <= Error(p, r.codes, s, |p.xs|)
      && GridScale(p, step) > 0.0 && Error(p, r.codes, ScaleOf(r), |p.xs|) <= GridError(p, GridScale(p, step))
  {
    hide Refine;
    hide Error;
    hide GridScale;
    hide Codes;
    hide Highest;
    var pick := Grid(p, 9);
    var st := Start(p, pick.iscale);
    StartExact(p, pick.iscale);
    StartInRange(p, pick.iscale);
    RefineInRange(p, st, 5);
    DescentIsSound(p, st, 5, s);
    DescentIsSound(p, st, 5, 1.0 / pick.iscale);
    GridIsLeast(p, 9, step);
  }
}
