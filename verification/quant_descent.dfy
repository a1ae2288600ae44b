/** Coordinate descent over the codes (make_q3_quants and make_qp_quants in CGGML/ggml-quants.c) over exact reals: the
    sums stay exact and every move lowers the least possible error. */
module QuantDescent {
  import opened QuantSums

  /** How far codes may go: make_q3_quants uses signed codes, make_qp_quants has only an upper limit. */
  datatype Rule = Signed(nmax: nat) | Upper(nmax: nat) {
    function Limit(l: int): int {
      match this
      case Signed(nmax) => if l < 0 - nmax then 0 - nmax else if l > nmax - 1 then nmax - 1 else l
      case Upper(nmax) => if l > nmax then nmax else l
    }
  }

  datatype Problem = Problem(xs: seq<real>, ws: seq<real>, rule: Rule, round: real -> int)

  ghost predicate Valid(p: Problem) {
    && |p.xs| == |p.ws| && p.rule.nmax >= 1 && Rounding(p.round)
    && forall i :: 0 <= i < |p.ws| ==> p.ws[i] >= 0.0
  }

  /** L, sumlx, suml2 and n_changed. */
  datatype State = State(codes: seq<int>, lx: real, l2: real, changed: nat)

  /** The running sums are the sums over the current codes. */
  ghost predicate Exact(p: Problem, st: State)
    requires |p.xs| == |p.ws|
  {
    && |st.codes| == |p.xs|
    && st.lx == SumUV(p.ws, Reals(st.codes), p.xs, |p.xs|)
    && st.l2 == SumUV(p.ws, Reals(st.codes), Reals(st.codes), |p.xs|)
  }

  // ---------------------------------------------------------------- one code

  /** The first sums give a smaller least error than the second, cross-multiplied. */
  predicate Gains(lx: real, l2: real, lx0: real, l20: real) {
    Times(Times(lx, lx), l20) > Times(Times(lx0, lx0), l2)
  }

  /** The real number whose rounding is proposed as the new code. */
  function Proposal(x: real, sl2: real, slx: real): real
    requires slx > 0.0
  {
    x * sl2 / slx
  }

  lemma ProposalNonnegative(x: real, sl2: real, slx: real)
    requires x >= 0.0 && sl2 >= 0.0 && slx > 0.0
    ensures Proposal(x, sl2, slx) >= 0.0
  {
    PositiveTimes(x, sl2);
    QuotientPositive(x * sl2, slx);
  }

  function Visit(p: Problem, st: State, i: nat): (r: State)
    requires |st.codes| == |p.xs| == |p.ws| && i < |p.xs|
    ensures |r.codes| == |p.xs|
  {
    var w, x, l := p.ws[i], p.xs[i], st.codes[i] as real;
    var slx, sl2 := st.lx - Times(w, Times(l, x)), st.l2 - Times(w, Times(l, l));
    if slx <= 0.0 || (p.rule.Upper? && sl2 <= 0.0) then st
    else
      var c := p.rule.Limit(p.round(Proposal(x, sl2, slx)));
      var lx, l2 := slx + Times(w, Times(c as real, x)), sl2 + Times(w, Times(c as real, c as real));
      if c != st.codes[i] && (p.rule.Upper? || l2 > 0.0) && Gains(lx, l2, st.lx, st.l2)
      then State(st.codes[i := c], lx, l2, st.changed + 1)
      else st
  }

  lemma {:induction false} SumAgrees(ws: seq<real>, us: seq<real>, vs: seq<real>, us': seq<real>, vs': seq<real>,
                                     n: nat)
    requires |us| == |vs| == |us'| == |vs'| == |ws| && n <= |ws|
    requires forall k :: 0 <= k < n ==> us[k] == us'[k] && vs[k] == vs'[k]
    ensures SumUV(ws, us, vs, n) == SumUV(ws, us', vs', n)
  {
    if n > 0 { SumAgrees(ws, us, vs, us', vs', n - 1); }
  }

  /** Changing position i changes a sum by the difference of the two terms. */
  lemma {:induction false} SumReplaced(ws: seq<real>, us: seq<real>, vs: seq<real>, us': seq<real>, vs': seq<real>,
                                       i: nat, n: nat)
    requires |us| == |vs| == |us'| == |vs'| == |ws| && i < n <= |ws|
    requires forall k :: 0 <= k < n && k != i ==> us[k] == us'[k] && vs[k] == vs'[k]
    ensures SumUV(ws, us', vs', n) == SumUV(ws, us, vs, n) - Times(ws[i], Times(us[i], vs[i])) + Times(ws[i],
              Times(us'[i], vs'[i]))
  {
    hide Times;
    if i == n - 1 {
      SumAgrees(ws, us, vs, us', vs', n - 1);
    } else {
      SumReplaced(ws, us, vs, us', vs', i, n - 1);
    }
  }

  /** A move keeps the sums exact. */
  lemma VisitExact(p: Problem, st: State, i: nat)
    requires Valid(p) && Exact(p, st) && i < |p.xs|
    ensures Exact(p, Visit(p, st, i))
  {
    hide Gains;
    hide Times;
    var r := Visit(p, st, i);
    if r != st {
      var q, q' := Reals(st.codes), Reals(r.codes);
      SumReplaced(p.ws, q, p.xs, q', p.xs, i, |p.xs|);
      SumReplaced(p.ws, q, q, q', q', i, |p.xs|);
    }
  }

  lemma SquareTermNonnegative(w: real, l: real)
    requires w >= 0.0
    ensures Times(w, Times(l, l)) >= 0.0
  {
    PositiveTimes(w, l * l);
  }

  lemma {:induction false} SquaresNonnegative(ws: seq<real>, q: seq<real>, n: nat)
    requires |ws| == |q| && n <= |ws| && forall i :: 0 <= i < |ws| ==> ws[i] >= 0.0
    ensures SumUV(ws, q, q, n) >= 0.0
  {
    if n > 0 {
      SquaresNonnegative(ws, q, n - 1);
      SquareTermNonnegative(ws[n - 1], q[n - 1]);
    }
  }

  lemma GainsNeedsWeight(lx: real, l2: real, lx0: real, l20: real)
    requires Gains(lx, l2, lx0, l20) && l2 >= 0.0 && l20 >= 0.0
    ensures l20 > 0.0
  {
    assert lx0 * lx0 >= 0.0;
    PositiveTimes(lx0 * lx0, l2);
  }

  /** lx * lx / l2: what the best scale takes off the error. */
  function Score(lx: real, l2: real): real
    requires l2 > 0.0
  {
    (lx / l2) * lx
  }

  lemma GainsRaises(lx: real, l2: real, lx0: real, l20: real)
    requires Gains(lx, l2, lx0, l20) && l2 > 0.0 && l20 > 0.0
    ensures Score(lx, l2) > Score(lx0, l20)
  {
    var s, s0 := lx / l2, lx0 / l20;
    assert s * l2 == lx && s0 * l20 == lx0;
    var a, b := s * lx, s0 * lx0;
    ScoreTimes(lx, l2, s, l20);
    ScoreTimes(lx0, l20, s0, l2);
    var k := l2 * l20;
    PositiveTimes(l2, l20);
    assert k * a > k * b;
    assert k * (a - b) > 0.0;
    PositiveProduct(k, a - b);
  }

  lemma ScoreTimes(lx: real, l2: real, s: real, l20: real)
    requires s * l2 == lx
    ensures Times(Times(lx, lx), l20) == (l2 * l20) * (s * lx)
  {
    calc {
      (lx * lx) * l20;
      ((s * l2) * lx) * l20;
      (l2 * l20) * (s * lx);
    }
  }

  /** A move changes one code, and strictly raises the score. */
  lemma VisitRaises(p: Problem, st: State, i: nat)
    requires Valid(p) && Exact(p, st) && i < |p.xs|
    ensures var r := Visit(p, st, i);
      if r.changed == st.changed then r == st
      else r.changed == st.changed + 1 && st.l2 > 0.0 && r.l2 > 0.0 && Score(r.lx, r.l2) > Score(st.lx, st.l2)
  {
    hide Gains;
    hide Times;
    hide Score;
    var r := Visit(p, st, i);
    if r.changed != st.changed {
      VisitExact(p, st, i);
      SquaresNonnegative(p.ws, Reals(st.codes), |p.xs|);
      SquaresNonnegative(p.ws, Reals(r.codes), |p.xs|);
      GainsNeedsWeight(r.lx, r.l2, st.lx, st.l2);
      SquareTermNonnegative(p.ws[i], r.codes[i] as real);
      GainsRaises(r.lx, r.l2, st.lx, st.l2);
    }
  }

  // ---------------------------------------------------------------- sweeps

  /** The codes below n, one after the other. */
  function Sweep(p: Problem, st: State, n: nat): (r: State)
    requires |st.codes| == |p.xs| == |p.ws| && n <= |p.xs|
    ensures |r.codes| == |p.xs|
  {
    if n == 0 then st.(changed := 0) else Visit(p, Sweep(p, st, n - 1), n - 1)
  }

  /** At most so many sweeps, stopping after one that changes nothing. */
  function Refine(p: Problem, st: State, tries: nat): (r: State)
    requires |st.codes| == |p.xs| == |p.ws|
    ensures |r.codes| == |p.xs|
    decreases tries
  {
    if tries == 0 then st
    else
      var r := Sweep(p, st, |p.xs|);
      if r.changed == 0 then r else Refine(p, r, tries - 1)
  }

  /** Both states have exact sums; the codes are the same, or the second has a strictly higher score. */
  ghost predicate Better(p: Problem, st: State, r: State)
    requires |p.xs| == |p.ws|
  {
    && Exact(p, st) && Exact(p, r)
    && (r.codes == st.codes || (st.l2 > 0.0 && r.l2 > 0.0 && Score(r.lx, r.l2) > Score(st.lx, st.l2)))
  }

  lemma {:induction false} SweepBetter(p: Problem, st: State, n: nat)
    requires Valid(p) && Exact(p, st) && n <= |p.xs|
    ensures Better(p, st, Sweep(p, st, n))
    ensures Sweep(p, st, n).changed == 0 <==> Sweep(p, st, n).codes == st.codes
  {
    hide Visit;
    hide Score;
    if n > 0 {
      SweepBetter(p, st, n - 1);
      VisitExact(p, Sweep(p, st, n - 1), n - 1);
      VisitRaises(p, Sweep(p, st, n - 1), n - 1);
    }
  }

  /** The sums stay exact, and unless no code changes the score is strictly higher. */
  lemma {:induction false} RefineBetter(p: Problem, st: State, tries: nat)
    requires Valid(p) && Exact(p, st)
    ensures Better(p, st, Refine(p, st, tries))
    decreases tries
  {
    hide Sweep;
    hide Score;
    if tries > 0 {
      SweepBetter(p, st, |p.xs|);
      var r := Sweep(p, st, |p.xs|);
      if r.changed != 0 { RefineBetter(p, r, tries - 1); }
    }
  }

  // ---------------------------------------------------------------- what that means for the error

  function Error(p: Problem, codes: seq<int>, s: real, n: nat): real
    requires |codes| == |p.xs| == |p.ws| && n <= |p.xs|
  {
    if n == 0 then 0.0 else Error(p, codes, s, n - 1) + Term(p.xs[n - 1], p.ws[n - 1], codes[n - 1] as real, s)
  }

  lemma TermParabola(x: real, w: real, q: real, s: real)
    ensures Term(x, w, q, s) == Parabola(Times(w, Times(x, x)), Times(w, Times(q, x)), Times(w, Times(q, q)), s)
  {
    TermExpands(x, w, q, s);
    assert Times(Times(w, x), q) == Times(w, Times(q, x));
  }

  lemma {:induction false} ErrorIsParabola(p: Problem, codes: seq<int>, s: real, n: nat)
    requires |codes| == |p.xs| == |p.ws| && n <= |p.xs|
    ensures Error(p, codes, s, n)
              == Parabola(SumUV(p.ws, p.xs, p.xs, n), SumUV(p.ws, Reals(codes), p.xs, n),
                SumUV(p.ws, Reals(codes), Reals(codes), n), s)
  {
    if n > 0 {
      hide Parabola;
      hide Times;
      hide Term;
      ErrorIsParabola(p, codes, s, n - 1);
      var w, x, q := p.ws[n - 1], p.xs[n - 1], Reals(codes)[n - 1];
      TermParabola(x, w, q, s);
      ParabolaStep(SumUV(p.ws, p.xs, p.xs, n - 1), SumUV(p.ws, Reals(codes), p.xs, n - 1),
        SumUV(p.ws, Reals(codes), Reals(codes), n - 1), s,
                   Times(w, Times(x, x)), Times(w, Times(q, x)), Times(w, Times(q, q)));
    } else {
      assert Parabola(0.0, 0.0, 0.0, s) == 0.0;
    }
  }

  /** Codes without weight say nothing about the values. */
  lemma {:induction false} ZeroSquares(ws: seq<real>, q: seq<real>, xs: seq<real>, n: nat)
    requires |ws| == |q| == |xs| && n <= |ws| && SumUV(ws, q, q, n) == 0.0 && forall i :: 0 <= i < |ws| ==> ws[i] >= 0.0
    ensures SumUV(ws, q, xs, n) == 0.0
  {
    if n > 0 {
      var w, c := ws[n - 1], q[n - 1];
      SquaresNonnegative(ws, q, n - 1);
      SquareTermNonnegative(w, c);
      ZeroSquares(ws, q, xs, n - 1);
      ZeroProduct(w, c, xs[n - 1]);
    }
  }

  lemma ZeroProduct(w: real, c: real, x: real)
    requires Times(w, Times(c, c)) == 0.0
    ensures Times(w, Times(c, x)) == 0.0
  {
    if w != 0.0 { assert c * c == 0.0; }
  }

  /** The scale a call returns. */
  function ScaleOf(st: State): real {
    if st.l2 > 0.0 then st.lx / st.l2 else 0.0
  }

  lemma ScaleIsLeast(p: Problem, st: State, s: real)
    requires Valid(p) && Exact(p, st)
    ensures Error(p, st.codes, ScaleOf(st), |p.xs|) <= Error(p, st.codes, s, |p.xs|)
    ensures st.l2 > 0.0 ==>
            Error(p, st.codes, ScaleOf(st), |p.xs|) == SumUV(p.ws, p.xs, p.xs, |p.xs|) - Score(st.lx, st.l2)
  {
    hide Parabola;
    var xx := SumUV(p.ws, p.xs, p.xs, |p.xs|);
    ErrorIsParabola(p, st.codes, s, |p.xs|);
    ErrorIsParabola(p, st.codes, ScaleOf(st), |p.xs|);
    SquaresNonnegative(p.ws, Reals(st.codes), |p.xs|);
    if st.l2 > 0.0 {
      VertexIsLeast(xx, st.lx, st.l2, s);
    } else {
      ZeroSquares(p.ws, Reals(st.codes), p.xs, |p.xs|);
      FlatParabola(xx, s);
      FlatParabola(xx, 0.0);
    }
  }

  lemma FlatParabola(x: real, s: real)
    ensures Parabola(x, 0.0, 0.0, s) == x
  {
  }

  /** The returned scale is the best there is for the returned codes, and no scale makes the codes of the start do
      better; if any code has changed the error is strictly smaller. */
  lemma DescentIsSound(p: Problem, st: State, tries: nat, s: real)
    requires Valid(p) && Exact(p, st)
    ensures var r := Refine(p, st, tries);
      && Exact(p, r)
      && Error(p, r.codes, ScaleOf(r), |p.xs|) <= Error(p, r.codes, s, |p.xs|)
      && Error(p, r.codes, ScaleOf(r), |p.xs|) <= Error(p, st.codes, s, |p.xs|)
      && (r.codes != st.codes ==> Error(p, r.codes, ScaleOf(r), |p.xs|) < Error(p, st.codes, s, |p.xs|))
  {
    hide Refine;
    hide Error;
    hide Score;
    var r := Refine(p, st, tries);
    RefineBetter(p, st, tries);
    ScaleIsLeast(p, st, s);
    ScaleIsLeast(p, r, s);
  }

  // ---------------------------------------------------------------- codes stay in range

  ghost predicate InRange(p: Problem, codes: seq<int>) {
    forall k :: 0 <= k < |codes| ==>
      match p.rule
      case Signed(nmax) => 0 - nmax <= codes[k] <= nmax - 1
      case Upper(nmax) => 0 <= codes[k] <= nmax
  }

  /** make_qp_quants stores its codes in bytes: its values are not negative. */
  ghost predicate Storable(p: Problem) {
    p.rule.Upper? ==> forall k :: 0 <= k < |p.xs| ==> p.xs[k] >= 0.0
  }

  lemma RoundNonnegative(round: real -> int, v: real)
    requires Rounding(round)
    ensures v >= 0.0 ==> round(v) >= 0
    ensures v <= 0.0 ==> round(v) <= 0
  {
    assert v - 0.5 <= round(v) as real <= v + 0.5;
  }

  lemma VisitInRange(p: Problem, st: State, i: nat)
    requires Valid(p) && Storable(p) && |st.codes| == |p.xs| && i < |p.xs| && InRange(p, st.codes)
    ensures InRange(p, Visit(p, st, i).codes)
  {
    hide Gains;
    var w, x, l := p.ws[i], p.xs[i], st.codes[i] as real;
    var slx, sl2 := st.lx - Times(w, Times(l, x)), st.l2 - Times(w, Times(l, l));
    hide Proposal;
    hide Times;
    if slx > 0.0 {
      if sl2 > 0.0 && x >= 0.0 { ProposalNonnegative(x, sl2, slx); }
      RoundNonnegative(p.round, Proposal(x, sl2, slx));
    }
  }

  lemma {:induction false} SweepInRange(p: Problem, st: State, n: nat)
    requires Valid(p) && Storable(p) && |st.codes| == |p.xs| && n <= |p.xs| && InRange(p, st.codes)
    ensures InRange(p, Sweep(p, st, n).codes)
  {
    hide Visit;
    hide InRange;
    if n > 0 {
      SweepInRange(p, st, n - 1);
      VisitInRange(p, Sweep(p, st, n - 1), n - 1);
    }
  }

  lemma {:induction false} RefineInRange(p: Problem, st: State, tries: nat)
    requires Valid(p) && Storable(p) && |st.codes| == |p.xs| && InRange(p, st.codes)
    ensures InRange(p, Refine(p, st, tries).codes)
    decreases tries
  {
    hide Sweep;
    hide InRange;
    if tries > 0 {
      SweepInRange(p, st, |p.xs|);
      var r := Sweep(p, st, |p.xs|);
      if r.changed != 0 { RefineInRange(p, r, tries - 1); }
    }
  }

  // ---------------------------------------------------------------- where the descent starts

  function CodeOf(p: Problem, iscale: real, x: real): int {
    p.rule.Limit(p.round(Times(iscale, x)))
  }

  function Codes(p: Problem, iscale: real): (l: seq<int>)
    ensures |l| == |p.xs| && forall i :: 0 <= i < |l| ==> l[i] == CodeOf(p, iscale, p.xs[i])
  {
    seq(|p.xs|, i requires 0 <= i < |p.xs| => CodeOf(p, iscale, p.xs[i]))
  }

  function Start(p: Problem, iscale: real): State
    requires |p.xs| == |p.ws|
  {
    var codes := Codes(p, iscale);
    State(codes, SumUV(p.ws, Reals(codes), p.xs, |p.xs|), SumUV(p.ws, Reals(codes), Reals(codes), |p.xs|), 0)
  }

  lemma {:induction false} TermsNotPositive(ws: seq<real>, us: seq<real>, vs: seq<real>, n: nat)
    requires |us| == |vs| == |ws| && n <= |ws|
    requires forall k :: 0 <= k < n ==> ws[k] >= 0.0 && Times(us[k], vs[k]) <= 0.0
    ensures SumUV(ws, us, vs, n) <= 0.0
  {
    if n > 0 {
      TermsNotPositive(ws, us, vs, n - 1);
      PositiveTimes(ws[n - 1], -Times(us[n - 1], vs[n - 1]));
    }
  }

  /** Codes whose sign opposes the sign of their values. */
  ghost predicate Opposed(p: Problem, codes: seq<int>)
    requires |codes| == |p.xs|
  {
    forall k :: 0 <= k < |codes| ==> Times(codes[k] as real, p.xs[k]) <= 0.0
  }

  lemma WithoutOneNotPositive(p: Problem, codes: seq<int>, i: nat)
    requires Valid(p) && |codes| == |p.xs| && i < |p.xs| && Opposed(p, codes)
    ensures SumUV(p.ws, Reals(codes), p.xs, |p.xs|) - Times(p.ws[i], Times(codes[i] as real, p.xs[i])) <= 0.0
  {
    var q := Reals(codes);
    var z := q[i := 0.0];
    SumReplaced(p.ws, q, p.xs, z, p.xs, i, |p.xs|);
    TermsNotPositive(p.ws, z, p.xs, |p.xs|);
  }

  lemma {:induction false} OpposedStays(p: Problem, st: State, n: nat)
    requires Valid(p) && Exact(p, st) && Opposed(p, st.codes) && n <= |p.xs|
    ensures Sweep(p, st, n) == st.(changed := 0)
  {
    hide Opposed;
    if n > 0 {
      OpposedStays(p, st, n - 1);
      WithoutOneNotPositive(p, st.codes, n - 1);
    }
  }

  lemma LimitKeepsSign(rule: Rule, l: int)
    requires rule.nmax >= 1
    ensures l <= 0 ==> rule.Limit(l) <= 0
    ensures l >= 0 ==> rule.Limit(l) >= 0
  {
  }

  lemma CodeOpposes(p: Problem, iscale: real, x: real)
    requires Valid(p) && iscale <= 0.0
    ensures Times(CodeOf(p, iscale, x) as real, x) <= 0.0
  {
    var v, code := Times(iscale, x), CodeOf(p, iscale, x);
    RoundNonnegative(p.round, v);
    LimitKeepsSign(p.rule, p.round(v));
    if x >= 0.0 {
      PositiveTimes(-iscale, x);
      PositiveTimes(-(code as real), x);
    } else {
      PositiveTimes(-iscale, -x);
      PositiveTimes(code as real, -x);
    }
  }

  /** The descent of make_q3_quants never moves when the value of largest magnitude is positive: the inverse scale is
      then negative, codes oppose their values, and the guard on slx always fails. */
  lemma NegativeScaleNeverMoves(p: Problem, iscale: real, tries: nat)
    requires Valid(p) && iscale <= 0.0
    ensures Refine(p, Start(p, iscale), tries).codes == Codes(p, iscale)
  {
    forall k | 0 <= k < |p.xs| ensures Times(Codes(p, iscale)[k] as real, p.xs[k]) <= 0.0 {
      CodeOpposes(p, iscale, p.xs[k]);
    }
    OpposedStays(p, Start(p, iscale), |p.xs|);
  }

  /** One move is enough: if the first sweep changes anything, the refined codes differ from those of the start. */
  lemma FirstMoveStays(p: Problem, st: State, tries: nat)
    requires Valid(p) && Exact(p, st) && tries > 0 && Sweep(p, st, |p.xs|).changed > 0
    ensures Refine(p, st, tries).codes != st.codes
  {
    hide Sweep;
    hide Score;
    var r := Sweep(p, st, |p.xs|);
    SweepBetter(p, st, |p.xs|);
    RefineBetter(p, r, tries - 1);
  }

  lemma {:induction false} ChangesAddUp(p: Problem, st: State, i: nat, n: nat)
    requires |st.codes| == |p.xs| == |p.ws| && i <= n <= |p.xs|
    ensures Sweep(p, st, i).changed <= Sweep(p, st, n).changed
    decreases n
  {
    if i < n { ChangesAddUp(p, st, i, n - 1); }
  }
}
