/** The tries of the two-parameter fit: what is kept never gets worse and beats every line through the codes of every
    try. */
module QuantFitRun {
  import opened Wrappers
  import opened QuantSums
  import opened QuantFit

  // ---------------------------------------------------------------- codes

  function Clamp(l: int, hi: nat): nat {
    if l < 0 then 0 else if l > hi then hi else l
  }

  function CodeOf(p: Problem, iscale: real, min: real, x: real): nat {
    Clamp(p.round(Times(iscale, x - min)), p.nmax)
  }

  function Codes(p: Problem, iscale: real, min: real): (l: seq<nat>)
    ensures |l| == |p.xs| && forall i :: 0 <= i < |l| ==> l[i] == CodeOf(p, iscale, min, p.xs[i])
  {
    seq<nat>(|p.xs|, i requires 0 <= i < |p.xs| => CodeOf(p, iscale, min, p.xs[i]))
  }

  lemma CodesMonotone(p: Problem, iscale: real, min: real)
    requires Rounding(p.round) && iscale >= 0.0
    ensures Monotone(p.xs, Reals(Codes(p, iscale, min)))
  {
    var q := Reals(Codes(p, iscale, min));
    forall i, j | 0 <= i < |p.xs| && 0 <= j < |p.xs| && p.xs[i] <= p.xs[j] ensures q[i] <= q[j] {
      CodeMonotone(p, iscale, min, p.xs[i], p.xs[j]);
    }
  }

  lemma CodeMonotone(p: Problem, iscale: real, min: real, x: real, y: real)
    requires Rounding(p.round) && iscale >= 0.0 && x <= y
    ensures CodeOf(p, iscale, min, x) <= CodeOf(p, iscale, min, y)
  {
    hide Times;
    TermMonotone(iscale, x - min, y - min);
    RoundMonotone(p.round, Times(iscale, x - min), Times(iscale, y - min));
  }

  // ---------------------------------------------------------------- range of the values

  function Largest(xs: seq<real>, n: nat): real
    requires 0 < n <= |xs|
  {
    if n == 1 then xs[0] else if xs[n - 1] > Largest(xs, n - 1) then xs[n - 1] else Largest(xs, n - 1)
  }

  function Smallest(xs: seq<real>, n: nat): real
    requires 0 < n <= |xs|
  {
    if n == 1 then xs[0] else if xs[n - 1] < Smallest(xs, n - 1) then xs[n - 1] else Smallest(xs, n - 1)
  }

  lemma {:induction false} LargestMeaning(xs: seq<real>, n: nat) returns (k: nat)
    requires 0 < n <= |xs|
    ensures k < n && xs[k] == Largest(xs, n) && forall i :: 0 <= i < n ==> xs[i] <= Largest(xs, n)
  {
    if n == 1 {
      k := 0;
    } else {
      k := LargestMeaning(xs, n - 1);
      if xs[n - 1] > Largest(xs, n - 1) { k := n - 1; }
    }
  }

  lemma {:induction false} SmallestMeaning(xs: seq<real>, n: nat) returns (k: nat)
    requires 0 < n <= |xs|
    ensures k < n && xs[k] == Smallest(xs, n) && forall i :: 0 <= i < n ==> Smallest(xs, n) <= xs[i]
  {
    if n == 1 {
      k := 0;
    } else {
      k := SmallestMeaning(xs, n - 1);
      if xs[n - 1] < Smallest(xs, n - 1) { k := n - 1; }
    }
  }

  function Max(p: Problem): real
    requires |p.xs| > 0
  {
    Largest(p.xs, |p.xs|)
  }

  /** The smallest value, or zero when that is smaller. */
  function Min(p: Problem): real
    requires |p.xs| > 0
  {
    if Smallest(p.xs, |p.xs|) > 0.0 then 0.0 else Smallest(p.xs, |p.xs|)
  }

  /** The values do not all coincide, or they are all positive. */
  ghost predicate Spread(p: Problem)
  {
    Valid(p) && Max(p) > Min(p)
  }

  // ---------------------------------------------------------------- the tries

  datatype Kept = Kept(codes: seq<nat>, scale: real, min: real, error: real)

  function ErrorOf(p: Problem, codes: seq<nat>, s: real, m: real): real
    requires |p.xs| == |p.ws| == |codes|
  {
    Error(p.useMad, p.xs, p.ws, Reals(codes), s, m, |p.xs|)
  }

  function SquaredErrorOf(p: Problem, codes: seq<nat>, s: real, m: real): real
    requires |p.xs| == |p.ws| == |codes|
  {
    Error(false, p.xs, p.ws, Reals(codes), s, m, |p.xs|)
  }

  /** The plain quantisation the tries start from. */
  function First(p: Problem): Kept
    requires Spread(p)
  {
    QuotientPositive(p.nmax as real, Max(p) - Min(p));
    var iscale := p.nmax as real / (Max(p) - Min(p));
    var codes, scale := Codes(p, iscale, Min(p)), 1.0 / iscale;
    Kept(codes, scale, Min(p), ErrorOf(p, codes, scale, Min(p)))
  }

  function TryCodes(p: Problem, min: real, k: nat): (l: seq<nat>)
    requires |p.xs| > 0 && Max(p) > min
    ensures |l| == |p.xs|
  {
    Codes(p, (p.rmin + p.rdelta * k as real + p.nmax as real) / (Max(p) - min), min)
  }

  /** D of a try. */
  function Determinant(p: Problem, codes: seq<nat>): real
    requires |p.xs| == |p.ws| == |codes|
  {
    Det(PrefixW(p.ws, |p.ws|), PrefixWX(Reals(codes), p.ws, |p.ws|), SumUV(p.ws, Reals(codes), Reals(codes), |p.ws|))
  }

  function LineOf(p: Problem, codes: seq<nat>): Line
    requires Valid(p) && |p.xs| == |codes| && Determinant(p, codes) > 0.0
  {
    WeightNonnegative(p.ws, |p.ws|);
    FitLine(PrefixW(p.ws, |p.ws|), PrefixWX(p.xs, p.ws, |p.ws|), PrefixWX(Reals(codes), p.ws, |p.ws|),
            SumUV(p.ws, Reals(codes), Reals(codes), |p.ws|), SumUV(p.ws, Reals(codes), p.xs, |p.ws|))
  }

  function Candidate(p: Problem, min: real, k: nat): Option<Kept>
    requires Valid(p) && Max(p) > min
  {
    var codes := TryCodes(p, min, k);
    if Determinant(p, codes) > 0.0 then
      var f := LineOf(p, codes);
      Some(Kept(codes, f.scale, f.min, ErrorOf(p, codes, f.scale, f.min)))
    else None
  }

  function Step(p: Problem, kept: Kept, k: nat): Kept
    requires Valid(p) && Max(p) > kept.min
  {
    match Candidate(p, kept.min, k)
    case Some(c) => if c.error < kept.error then c else kept
    case None => kept
  }

  lemma TryScaleNonnegative(p: Problem, min: real, k: nat)
    requires Valid(p) && Max(p) > min
    ensures (p.rmin + p.rdelta * k as real + p.nmax as real) / (Max(p) - min) >= 0.0
  {
    PositiveTimes(p.rdelta, k as real);
    QuotientPositive(p.rmin + p.rdelta * k as real + p.nmax as real, Max(p) - min);
  }

  lemma InterceptOfTry(p: Problem, codes: seq<nat>)
    requires Valid(p) && |p.xs| == |codes| && Determinant(p, codes) > 0.0 && Monotone(p.xs, Reals(codes))
    ensures LineOf(p, codes).min <= 0.0 && LineOf(p, codes).min < Max(p)
  {
    hide Det;
    hide Intercept;
    hide Slope;
    var k := LargestMeaning(p.xs, |p.xs|);
    WeightNonnegative(p.ws, |p.ws|);
    InterceptBelowLargest(p.xs, p.ws, Reals(codes), k);
  }

  /** No try divides by zero: the kept minimum always stays below the largest value, and is never positive. */
  lemma CandidateBelowLargest(p: Problem, min: real, k: nat)
    requires Valid(p) && Max(p) > min && Candidate(p, min, k).Some?
    ensures Candidate(p, min, k).value.min <= 0.0 && Candidate(p, min, k).value.min < Max(p)
  {
    hide LineOf;
    hide Determinant;
    TryMonotone(p, min, k);
    hide TryCodes;
    InterceptOfTry(p, TryCodes(p, min, k));
  }

  lemma TryMonotone(p: Problem, min: real, k: nat)
    requires Valid(p) && Max(p) > min
    ensures Monotone(p.xs, Reals(TryCodes(p, min, k)))
  {
    hide Monotone;
    TryScaleNonnegative(p, min, k);
    CodesMonotone(p, (p.rmin + p.rdelta * k as real + p.nmax as real) / (Max(p) - min), min);
  }

  /** What is kept after the first n tries. */
  function Run(p: Problem, n: nat): (r: Kept)
    requires Spread(p)
    ensures r.min <= 0.0 && r.min < Max(p)
  {
    if n == 0 then First(p)
    else
      var before := Run(p, n - 1);
      if Candidate(p, before.min, n - 1).Some? then CandidateBelowLargest(p, before.min, n - 1); Step(p, before, n - 1)
      else Step(p, before, n - 1)
  }

  // ---------------------------------------------------------------- what the tries achieve

  lemma {:induction false} KeptError(p: Problem, n: nat)
    requires Spread(p)
    ensures |Run(p, n).codes| == |p.xs| && Run(p, n).error
            == ErrorOf(p, Run(p, n).codes, Run(p, n).scale, Run(p, n).min)
    ensures forall i :: 0 <= i < |p.xs| ==> Run(p, n).codes[i] <= p.nmax
  {
    hide ErrorOf;
    hide Determinant;
    hide LineOf;
    if n > 0 { KeptError(p, n - 1); }
  }

  /** What is kept never gets worse, and changes only for something strictly better. */
  lemma {:induction false} RunImproves(p: Problem, j: nat, n: nat)
    requires Spread(p) && j <= n
    ensures Run(p, n).error <= Run(p, j).error
    ensures Run(p, n) == Run(p, j) || Run(p, n).error < Run(p, j).error
  {
    if j < n {
      hide Step;
      hide First;
      hide Candidate;
      RunImproves(p, j, n - 1);
      StepImproves(p, Run(p, n - 1), n - 1);
    }
  }

  lemma StepImproves(p: Problem, kept: Kept, k: nat)
    requires Valid(p) && Max(p) > kept.min
    ensures Step(p, kept, k) == kept || Step(p, kept, k).error < kept.error
    ensures Candidate(p, kept.min, k).Some? ==> Step(p, kept, k).error <= Candidate(p, kept.min, k).value.error
  {
    hide Candidate;
  }

  /** The line of a try is the best of all scales and all minima that are not positive, for the codes of the try. */
  lemma CandidateIsLeast(p: Problem, codes: seq<nat>, s: real, m: real)
    requires Valid(p) && |p.xs| == |codes| && Determinant(p, codes) > 0.0 && m <= 0.0
    ensures SquaredErrorOf(p, codes, LineOf(p, codes).scale, LineOf(p, codes).min) <= SquaredErrorOf(p, codes, s, m)
  {
    hide Det;
    hide Intercept;
    hide Slope;
    hide Surface;
    var q, n := Reals(codes), |p.ws|;
    var f := LineOf(p, codes);
    ErrorIsSurface(p.xs, p.ws, q, s, m, n);
    ErrorIsSurface(p.xs, p.ws, q, f.scale, f.min, n);
    WeightNonnegative(p.ws, n);
    FitLineIsLeast(PrefixW(p.ws, n), PrefixWX(p.xs, p.ws, n), PrefixWX(q, p.ws, n), SumUV(p.ws, q, q, n),
      SumUV(p.ws, q, p.xs, n), SumUV(p.ws, p.xs, p.xs, n), s, m);
  }

  /** With squared errors, the result beats every scale and every minimum that is not positive, for the codes of every
      try. */
  lemma BeatsEveryTry(p: Problem, j: nat, n: nat, s: real, m: real)
    requires Spread(p) && !p.useMad && j < n && m <= 0.0 && Determinant(p, TryCodes(p, Run(p, j).min, j)) > 0.0
    ensures Run(p, n).error <= SquaredErrorOf(p, TryCodes(p, Run(p, j).min, j), s, m)
  {
    hide Determinant;
    hide LineOf;
    hide TryCodes;
    var next := j + 1;
    RunImproves(p, next, n);
    CandidateIsLeast(p, TryCodes(p, Run(p, j).min, j), s, m);
    assert Run(p, next) == Step(p, Run(p, j), j);
  }

  /** Values that all coincide are reproduced exactly by codes of zero. */
  lemma {:induction false} FlatIsExact(p: Problem, codes: seq<nat>, n: nat)
    requires Valid(p) && !Spread(p) && |codes| == |p.xs| && n <= |codes| && forall i :: 0 <= i < |codes| ==>
             codes[i] == 0
    ensures Error(p.useMad, p.xs, p.ws, Reals(codes), 0.0, Min(p), n) == 0.0
  {
    if n > 0 {
      FlatIsExact(p, codes, n - 1);
      var k := LargestMeaning(p.xs, |p.xs|);
      var j := SmallestMeaning(p.xs, |p.xs|);
      assert p.xs[n - 1] == Min(p);
      ZeroDeviation(p.useMad, p.ws[n - 1]);
    }
  }

  lemma ZeroDeviation(useMad: bool, w: real)
    ensures Times(w, Deviation(useMad, 0.0)) == 0.0
  {
  }

  // ---------------------------------------------------------------- the loops

  method Scan(p: Problem) returns (min: real, max: real, sumW: real, sumX: real)
    requires Valid(p)
    ensures min == Min(p) && max == Max(p) && sumW == PrefixW(p.ws, |p.ws|) && sumX == PrefixWX(p.xs, p.ws, |p.ws|)
  {
    min, max, sumW := p.xs[0], p.xs[0], p.ws[0];
    sumX := Times(sumW, p.xs[0]);
    hide Times;
    var i := 1;
    assert PrefixW(p.ws, 0) == 0.0 && PrefixWX(p.xs, p.ws, 0) == 0.0;
    while i < |p.xs|
      invariant 1 <= i <= |p.xs|
      invariant min == Smallest(p.xs, i) && max == Largest(p.xs, i) && sumW == PrefixW(p.ws, i)
                && sumX == PrefixWX(p.xs, p.ws, i)
    {
      if p.xs[i] < min { min := p.xs[i]; }
      if p.xs[i] > max { max := p.xs[i]; }
      sumW := sumW + p.ws[i];
      sumX := sumX + Times(p.ws[i], p.xs[i]);
      i := i + 1;
    }
    if min > 0.0 { min := 0.0; }
  }

  method ErrorLoop(p: Problem, codes: array<nat>, s: real, m: real) returns (error: real)
    requires Valid(p) && codes.Length == |p.xs|
    ensures error == ErrorOf(p, codes[..], s, m)
  {
    hide Loss;
    error := 0.0;
    ghost var q := Reals(codes[..]);
    var i := 0;
    while i < |p.xs|
      invariant i <= |p.xs| && q == Reals(codes[..]) && error == Error(p.useMad, p.xs, p.ws, q, s, m, i)
    {
      assert q[i] == codes[i] as real;
      error := error + Loss(p.useMad, p.ws[i], p.xs[i], codes[i] as real, s, m);
      i := i + 1;
    }
  }

  method Encode(p: Problem, iscale: real, min: real, L: array<nat>)
    requires Valid(p) && L.Length == |p.xs|
    modifies L
    ensures L[..] == Codes(p, iscale, min)
  {
    var i := 0;
    while i < |p.xs|
      invariant i <= |p.xs| && forall k :: 0 <= k < i ==> L[k] == CodeOf(p, iscale, min, p.xs[k])
    {
      L[i] := CodeOf(p, iscale, min, p.xs[i]);
      i := i + 1;
    }
  }

  method Sums(p: Problem, codes: array<nat>) returns (sumL: real, sumL2: real, sumXL: real)
    requires Valid(p) && codes.Length == |p.xs|
    ensures sumL == PrefixWX(Reals(codes[..]), p.ws, |p.ws|)
            && sumL2 == SumUV(p.ws, Reals(codes[..]), Reals(codes[..]), |p.ws|)
    ensures sumXL == SumUV(p.ws, Reals(codes[..]), p.xs, |p.ws|)
  {
    hide Times;
    sumL, sumL2, sumXL := 0.0, 0.0, 0.0;
    ghost var q := Reals(codes[..]);
    var i := 0;
    while i < |p.xs|
      invariant i <= |p.xs| && q == Reals(codes[..])
      invariant sumL == PrefixWX(q, p.ws, i) && sumL2 == SumUV(p.ws, q, q, i) && sumXL == SumUV(p.ws, q, p.xs, i)
    {
      var w, l := p.ws[i], codes[i] as real;
      assert q[i] == l;
      sumL := sumL + Times(w, l);
      sumL2 := sumL2 + Times(w, Times(l, l));
      sumXL := sumXL + Times(w, Times(l, p.xs[i]));
      i := i + 1;
    }
  }

  method Copy(from: array<nat>, to: array<nat>)
    requires from != to && from.Length == to.Length
    modifies to
    ensures to[..] == from[..]
  {
    var i := 0;
    while i < from.Length
      invariant i <= from.Length && forall k :: 0 <= k < i ==> to[k] == from[k]
    {
      to[i] := from[i];
      i := i + 1;
    }
  }

  /** One try. */
  method TryOne(p: Problem, k: nat, sumW: real, sumX: real, max: real, L: array<nat>, Laux: array<nat>, scale: real,
                min: real, best: real)
    returns (scale': real, min': real, best': real)
    requires Spread(p) && L != Laux && L.Length == Laux.Length == |p.xs|
    requires sumW == PrefixW(p.ws, |p.ws|) && sumX == PrefixWX(p.xs, p.ws, |p.ws|) && max == Max(p) > min
    modifies L, Laux
    ensures Kept(L[..], scale', min', best') == Step(p, Kept(old(L[..]), scale, min, best), k)
  {
    hide Max;
    hide Det;
    hide Reals;
    hide ErrorOf;
    scale', min', best' := scale, min, best;
    Encode(p, (p.rmin + p.rdelta * k as real + p.nmax as real) / (max - min), min, Laux);
    ghost var codes := TryCodes(p, min, k);
    assert Laux[..] == codes;
    var sumL, sumL2, sumXL := Sums(p, Laux);
    WeightNonnegative(p.ws, |p.ws|);
    if Det(sumW, sumL, sumL2) > 0.0 {
      hide FitLine;
      var f := FitLine(sumW, sumX, sumL, sumL2, sumXL);
      assert f == LineOf(p, codes);
      hide LineOf;
      hide Determinant;
      var error := ErrorLoop(p, Laux, f.scale, f.min);
      if error < best {
        Copy(Laux, L);
        scale', min', best' := f.scale, f.min, error;
      }
    }
  }

  method Zero(L: array<nat>)
    modifies L
    ensures forall k :: 0 <= k < L.Length ==> L[k] == 0
  {
    var i := 0;
    while i < L.Length
      invariant i <= L.Length && forall k :: 0 <= k < i ==> L[k] == 0
    {
      L[i] := 0;
      i := i + 1;
    }
  }

  /** The plain quantisation. */
  method EncodePlain(p: Problem, min: real, max: real, L: array<nat>) returns (scale: real, best: real)
    requires Spread(p) && L.Length == |p.xs| && min == Min(p) && max == Max(p)
    modifies L
    ensures Kept(L[..], scale, min, best) == Run(p, 0)
  {
    hide Max;
    hide Min;
    hide First;
    hide ErrorOf;
    QuotientPositive(p.nmax as real, max - min);
    var iscale := p.nmax as real / (max - min);
    scale := 1.0 / iscale;
    Encode(p, iscale, min, L);
    best := ErrorLoop(p, L, scale, min);
    FirstKept(p, iscale, scale);
  }

  /** The codes in L, the scale and the negated minimum are those of the last kept try; Laux is scratch space. */
  method Fit(p: Problem, nstep: int, L: array<nat>, Laux: array<nat>) returns (scale: real, theMin: real)
    requires Valid(p) && L != Laux && L.Length == Laux.Length == |p.xs|
    modifies L, Laux
    ensures Spread(p) ==>
            var r := Run(p, if nstep < 1 then 0 else nstep + 1);
              L[..] == r.codes && scale == r.scale && theMin == -r.min
    ensures !Spread(p) ==> scale == 0.0 && theMin == -Min(p) && forall k :: 0 <= k < L.Length ==> L[k] == 0
    ensures theMin >= 0.0
  {
    hide Max;
    hide Min;
    hide Run;
    hide Step;
    hide Rounding;
    var min, max, sumW, sumX := Scan(p);
    MinNotPositive(p);
    if max == min {
      Zero(L);
      return 0.0, -min;
    }
    MinAtMostMax(p);
    var best;
    scale, best := EncodePlain(p, min, max, L);
    if nstep < 1 {
      return scale, -min;
    }
    var k := 0;
    while k <= nstep
      invariant 0 <= k <= nstep + 1
      invariant Kept(L[..], scale, min, best) == Run(p, k) && min < max && min <= 0.0
    {
      ghost var kept := Kept(L[..], scale, min, best);
      scale, min, best := TryOne(p, k, sumW, sumX, max, L, Laux, scale, min, best);
      RunStep(p, k, kept);
      k := k + 1;
    }
    theMin := -min;
  }

  lemma FirstKept(p: Problem, iscale: real, scale: real)
    requires Spread(p) && iscale == p.nmax as real / (Max(p) - Min(p)) && iscale > 0.0 && scale == 1.0 / iscale
    ensures Run(p, 0) == Kept(Codes(p, iscale, Min(p)), scale, Min(p),
            ErrorOf(p, Codes(p, iscale, Min(p)), scale, Min(p)))
  {
    hide ErrorOf;
    hide Max;
    hide Min;
  }

  lemma RunStep(p: Problem, k: nat, kept: Kept)
    requires Spread(p) && kept == Run(p, k)
    ensures var n := k + 1; Run(p, n) == Step(p, kept, k) && Run(p, n).min < Max(p) && Run(p, n).min <= 0.0
  {
  }

  lemma MinNotPositive(p: Problem)
    requires Valid(p)
    ensures Min(p) <= 0.0
  {
  }

  lemma MinAtMostMax(p: Problem)
    requires Valid(p)
    ensures Min(p) <= Max(p)
  {
    var k := LargestMeaning(p.xs, |p.xs|);
    var j := SmallestMeaning(p.xs, |p.xs|);
  }
}
