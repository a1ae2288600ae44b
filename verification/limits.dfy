/** Continuity and derivatives of real functions, by epsilon and delta. */
module Limits {
  function Abs(x: real): real {
    if x < 0.0 then -x else x
  }

  function Smaller(x: real, y: real): real {
    if x < y then x else y
  }

  /** Within delta of x0, f stays within eps of f(x0). */
  ghost predicate Stays(f: real -> real, x0: real, delta: real, eps: real) {
    forall x :: Abs(x - x0) < delta ==> Abs(f(x) - f(x0)) < eps
  }

  ghost predicate StaysSomewhere(f: real -> real, x0: real, eps: real) {
    exists delta :: delta > 0.0 && Stays(f, x0, delta, eps)
  }

  ghost predicate Continuous(f: real -> real, x0: real) {
    forall eps :: eps > 0.0 ==> StaysSomewhere(f, x0, eps)
  }

  /** The increment of f at x differs from d times the increment of x by at most eps times that. */
  ghost predicate NearlyAt(f: real -> real, x0: real, d: real, eps: real, x: real) {
    Abs(f(x) - f(x0) - Mult(d, x - x0)) <= Mult(eps, Abs(x - x0))
  }

  ghost predicate NearlyLinear(f: real -> real, x0: real, d: real, delta: real, eps: real) {
    forall x :: Abs(x - x0) < delta ==> NearlyAt(f, x0, d, eps, x)
  }

  ghost predicate NearlyLinearSomewhere(f: real -> real, x0: real, d: real, eps: real) {
    exists delta :: delta > 0.0 && NearlyLinear(f, x0, d, delta, eps)
  }

  /** d is the derivative of f at x0. */
  ghost predicate HasDerivative(f: real -> real, x0: real, d: real) {
    forall eps :: eps > 0.0 ==> NearlyLinearSomewhere(f, x0, d, eps)
  }

  // ---------------------------------------------------------------- products

  lemma Positive(x: real, y: real)
    requires x >= 0.0 && y >= 0.0
    ensures x * y >= 0.0
  {
  }

  lemma StrictlyPositive(x: real, y: real)
    requires x > 0.0 && y > 0.0
    ensures x * y > 0.0
  {
  }

  lemma AbsProduct(x: real, y: real)
    ensures Abs(x * y) == Abs(x) * Abs(y)
  {
    Positive(Abs(x), Abs(y));
  }

  lemma ProductMonotone(x: real, y: real, u: real, v: real)
    requires 0.0 <= x <= u && 0.0 <= y <= v
    ensures x * y <= u * v
  {
    Positive(x, v - y);
    Positive(u - x, v);
  }

  lemma StrictlyLess(x: real, y: real, k: real)
    requires x < y && k > 0.0
    ensures x * k < y * k
  {
    StrictlyPositive(y - x, k);
  }

  /** A share of eps: its k-fold is eps. */
  lemma Share(eps: real, k: real) returns (p: real)
    requires eps > 0.0 && k > 0.0
    ensures p > 0.0 && Mult(p, k) == eps
  {
    p := eps / k;
  }

  // ---------------------------------------------------------------- continuity

  lemma DeltaFor(f: real -> real, x0: real, eps: real) returns (delta: real)
    requires Continuous(f, x0) && eps > 0.0
    ensures delta > 0.0 && Stays(f, x0, delta, eps)
  {
    assert StaysSomewhere(f, x0, eps);
    delta :| delta > 0.0 && Stays(f, x0, delta, eps);
  }

  lemma ConstantIsContinuous(f: real -> real, c: real, x0: real)
    requires forall x :: f(x) == c
    ensures Continuous(f, x0)
  {
    forall eps | eps > 0.0 ensures StaysSomewhere(f, x0, eps) { assert Stays(f, x0, 1.0, eps); }
  }

  lemma IdentityIsContinuous(f: real -> real, x0: real)
    requires forall x :: f(x) == x
    ensures Continuous(f, x0)
  {
    forall eps | eps > 0.0 ensures StaysSomewhere(f, x0, eps) { assert Stays(f, x0, eps, eps); }
  }

  lemma SumIsContinuous(f: real -> real, g: real -> real, h: real -> real, x0: real)
    requires Continuous(f, x0) && Continuous(g, x0) && forall x :: h(x) == f(x) + g(x)
    ensures Continuous(h, x0)
  {
    forall eps | eps > 0.0 ensures StaysSomewhere(h, x0, eps) {
      var a := DeltaFor(f, x0, eps / 2.0);
      var b := DeltaFor(g, x0, eps / 2.0);
      assert Stays(h, x0, Smaller(a, b), eps);
    }
  }

  /** A product, named so that it can be passed around without multiplying out. */
  function Mult(x: real, y: real): real {
    x * y
  }

  lemma SmallPart(d: real, g: real, bound: real, p: real, half: real)
    requires p > 0.0 && Mult(p, bound) == half && Abs(d) < p && Abs(g) <= bound && bound > 0.0
    ensures Abs(Mult(d, g)) < half
  {
    AbsProduct(d, g);
    ProductMonotone(Abs(d), Abs(g), Abs(d), bound);
    StrictlyLess(Abs(d), p, bound);
  }

  lemma ProductSplit(f: real, g: real, f0: real, g0: real)
    ensures Mult(f, g) - Mult(f0, g0) == Mult(f - f0, g) + Mult(g - g0, f0)
  {
  }

  /** A product differs little when its factors do. */
  lemma ProductDiffers(f: real, g: real, f0: real, g0: real, p: real, q: real, half: real)
    requires p > 0.0 && q > 0.0 && Mult(p, Abs(g0) + 1.0) == half && Mult(q, Abs(f0) + 1.0) == half
    requires Abs(f - f0) < p && Abs(g - g0) < 1.0 && Abs(g - g0) < q
    ensures Abs(Mult(f, g) - Mult(f0, g0)) < half + half
  {
    hide Mult;
    ProductSplit(f, g, f0, g0);
    SmallPart(f - f0, g, Abs(g0) + 1.0, p, half);
    SmallPart(g - g0, f0, Abs(f0) + 1.0, q, half);
  }

  lemma ProductIsContinuous(f: real -> real, g: real -> real, h: real -> real, x0: real)
    requires Continuous(f, x0) && Continuous(g, x0) && forall x :: h(x) == Mult(f(x), g(x))
    ensures Continuous(h, x0)
  {
    forall eps | eps > 0.0 ensures StaysSomewhere(h, x0, eps) { ProductStays(f, g, h, x0, eps); }
  }

  lemma ProductStays(f: real -> real, g: real -> real, h: real -> real, x0: real, eps: real)
    requires Continuous(f, x0) && Continuous(g, x0) && eps > 0.0 && forall x :: h(x) == Mult(f(x), g(x))
    ensures StaysSomewhere(h, x0, eps)
  {
    hide Continuous;
    hide Mult;
    var f0, g0, half := f(x0), g(x0), eps / 2.0;
    var p := Share(half, Abs(g0) + 1.0);
    var q := Share(half, Abs(f0) + 1.0);
    var a := DeltaFor(f, x0, p);
    var b := DeltaFor(g, x0, Smaller(1.0, q));
    var delta := Smaller(a, b);
    forall x | Abs(x - x0) < delta ensures Abs(h(x) - h(x0)) < eps { ProductDiffersAt(f, g, h, x0, x, p, q, half); }
    assert Stays(h, x0, delta, eps);
  }

  lemma ProductDiffersAt(f: real -> real, g: real -> real, h: real -> real, x0: real, x: real, p: real, q: real,
                         half: real)
    requires h(x) == Mult(f(x), g(x)) && h(x0) == Mult(f(x0), g(x0))
    requires p > 0.0 && q > 0.0 && Mult(p, Abs(g(x0)) + 1.0) == half && Mult(q, Abs(f(x0)) + 1.0) == half
    requires Abs(f(x) - f(x0)) < p && Abs(g(x) - g(x0)) < 1.0 && Abs(g(x) - g(x0)) < q
    ensures Abs(h(x) - h(x0)) < half + half
  {
    hide Mult;
    ProductDiffers(f(x), g(x), f(x0), g(x0), p, q, half);
  }

  lemma ReciprocalIdentity(g: real, g0: real)
    requires g != 0.0 && g0 != 0.0
    ensures (1.0 / g - 1.0 / g0) * (g * g0) == g0 - g
  {
    var r, r0 := 1.0 / g, 1.0 / g0;
    assert r * g == 1.0 && r0 * g0 == 1.0;
    calc {
      (r - r0) * (g * g0);
      (r * g) * g0 - (r0 * g0) * g;
      g0 - g;
    }
  }

  /** Away from zero, reciprocals differ little. */
  lemma ReciprocalDiffers(g: real, g0: real, w: real, eps: real)
    requires g0 != 0.0 && eps > 0.0 && w == Abs(g0) / 2.0 * Abs(g0) && Abs(g - g0) < Abs(g0) / 2.0
             && Abs(g - g0) < eps * w
    ensures g != 0.0 && Abs(1.0 / g - 1.0 / g0) < eps
  {
    var d := 1.0 / g - 1.0 / g0;
    ReciprocalIdentity(g, g0);
    AbsProduct(d, g * g0);
    AbsProduct(g, g0);
    StrictlyLess(Abs(g0) / 2.0, Abs(g), Abs(g0));
    StrictlyPositive(Abs(g0) / 2.0, Abs(g0));
    if Abs(d) >= eps { ProductMonotone(eps, w, Abs(d), Abs(g * g0)); }
  }

  lemma ReciprocalIsContinuous(g: real -> real, r: real -> real, x0: real)
    requires Continuous(g, x0) && g(x0) != 0.0 && forall x :: g(x) != 0.0 ==> r(x) == 1.0 / g(x)
    ensures Continuous(r, x0)
  {
    var g0 := g(x0);
    var w := Abs(g0) / 2.0 * Abs(g0);
    StrictlyPositive(Abs(g0) / 2.0, Abs(g0));
    forall eps | eps > 0.0 ensures StaysSomewhere(r, x0, eps) {
      hide Continuous;
      StrictlyPositive(eps, w);
      var delta := DeltaFor(g, x0, Smaller(Abs(g0) / 2.0, eps * w));
      forall x | Abs(x - x0) < delta ensures Abs(r(x) - r(x0)) < eps { ReciprocalDiffers(g(x), g0, w, eps); }
      assert Stays(r, x0, delta, eps);
    }
  }

  /** A continuous function that is not zero at x0 is not zero around x0. */
  lemma NonzeroAround(g: real -> real, x0: real) returns (delta: real)
    requires Continuous(g, x0) && g(x0) != 0.0
    ensures delta > 0.0 && forall x :: Abs(x - x0) < delta ==> g(x) != 0.0
  {
    delta := DeltaFor(g, x0, Abs(g(x0)));
  }

  // ---------------------------------------------------------------- derivatives

  lemma LinearFor(f: real -> real, x0: real, d: real, eps: real) returns (delta: real)
    requires HasDerivative(f, x0, d) && eps > 0.0
    ensures delta > 0.0 && NearlyLinear(f, x0, d, delta, eps)
  {
    assert NearlyLinearSomewhere(f, x0, d, eps);
    delta :| delta > 0.0 && NearlyLinear(f, x0, d, delta, eps);
  }

  lemma SlopeDiffers(df: real, q: real, q0: real, t: real, eps: real)
    requires df == q * t && Abs(q - q0) <= eps
    ensures Abs(df - q0 * t) <= eps * Abs(t)
  {
    assert df - q0 * t == (q - q0) * t;
    AbsProduct(q - q0, t);
    ProductMonotone(Abs(q - q0), Abs(t), eps, Abs(t));
  }

  /** If the increment of f is q(x) times the increment of x around x0 and q is continuous, q(x0) is the derivative. */
  lemma SlopeGivesDerivative(f: real -> real, q: real -> real, x0: real, near: real)
    requires near > 0.0 && Continuous(q, x0) && forall x :: Abs(x - x0) < near ==> f(x) - f(x0) == q(x) * (x - x0)
    ensures HasDerivative(f, x0, q(x0))
  {
    forall eps | eps > 0.0 ensures NearlyLinearSomewhere(f, x0, q(x0), eps) {
      hide Continuous;
      var a := DeltaFor(q, x0, eps);
      var delta := Smaller(a, near);
      forall x | Abs(x - x0) < delta ensures NearlyAt(f, x0, q(x0), eps, x) {
        SlopeDiffers(f(x) - f(x0), q(x), q(x0), x - x0, eps);
      }
      assert NearlyLinear(f, x0, q(x0), delta, eps);
    }
  }

  lemma ConstantHasDerivative(f: real -> real, x0: real)
    requires forall x :: f(x) == f(x0)
    ensures HasDerivative(f, x0, 0.0)
  {
    forall eps | eps > 0.0 ensures NearlyLinearSomewhere(f, x0, 0.0, eps) {
      forall x | Abs(x - x0) < 1.0 ensures NearlyAt(f, x0, 0.0, eps, x) { Positive(eps, Abs(x - x0)); }
      assert NearlyLinear(f, x0, 0.0, 1.0, eps);
    }
  }

  lemma CombinationSplit(df: real, dg: real, w: real, d: real, e: real, t: real)
    ensures df + Mult(w, dg) - Mult(d + Mult(w, e), t) == (df - Mult(d, t)) + Mult(w, dg - Mult(e, t))
  {
  }

  lemma Halved(eps: real, t: real)
    ensures Mult(eps, t) == Mult(eps / 2.0, t) + Mult(eps / 2.0, t)
  {
  }

  lemma ScaledPart(w: real, r: real, part: real, t: real, half: real)
    requires part > 0.0 && t >= 0.0 && Mult(part, Abs(w) + 1.0) == half && Abs(r) <= Mult(part, t)
    ensures Abs(Mult(w, r)) <= Mult(half, t)
  {
    AbsProduct(w, r);
    Positive(part, t);
    ProductMonotone(Abs(w), Abs(r), Abs(w) + 1.0, part * t);
    calc {
      (Abs(w) + 1.0) * (part * t);
      (part * (Abs(w) + 1.0)) * t;
    }
  }

  lemma CombinationDiffers(df: real, dg: real, w: real, d: real, e: real, t: real, part: real, eps: real)
    requires part > 0.0 && Mult(part, Abs(w) + 1.0) == eps / 2.0
    requires Abs(df - Mult(d, t)) <= Mult(eps / 2.0, Abs(t)) && Abs(dg - Mult(e, t)) <= Mult(part, Abs(t))
    ensures Abs(df + Mult(w, dg) - Mult(d + Mult(w, e), t)) <= Mult(eps, Abs(t))
  {
    hide Mult;
    CombinationSplit(df, dg, w, d, e, t);
    ScaledPart(w, dg - Mult(e, t), part, Abs(t), eps / 2.0);
    Halved(eps, Abs(t));
  }

  /** The derivative of f + w * g. */
  lemma CombinationHasDerivative(f: real -> real, g: real -> real, h: real -> real, w: real, x0: real, d: real, e: real)
    requires HasDerivative(f, x0, d) && HasDerivative(g, x0, e) && forall x :: h(x) == f(x) + Mult(w, g(x))
    ensures HasDerivative(h, x0, d + Mult(w, e))
  {
    var k := d + Mult(w, e);
    forall eps | eps > 0.0 ensures NearlyLinearSomewhere(h, x0, k, eps) {
      hide HasDerivative;
      hide Mult;
      var part := Share(eps / 2.0, Abs(w) + 1.0);
      var a := LinearFor(f, x0, d, eps / 2.0);
      var b := LinearFor(g, x0, e, part);
      var delta := Smaller(a, b);
      forall x | Abs(x - x0) < delta ensures NearlyAt(h, x0, k, eps, x) {
        CombinationAt(f, g, h, w, x0, d, e, part, eps, x);
      }
      assert NearlyLinear(h, x0, k, delta, eps);
    }
  }

  lemma CombinationAt(f: real -> real, g: real -> real, h: real -> real, w: real, x0: real, d: real, e: real,
                      part: real, eps: real, x: real)
    requires h(x) == f(x) + Mult(w, g(x)) && h(x0) == f(x0) + Mult(w, g(x0))
    requires part > 0.0 && Mult(part, Abs(w) + 1.0) == eps / 2.0 && NearlyAt(f, x0, d, eps / 2.0, x)
             && NearlyAt(g, x0, e, part, x)
    ensures NearlyAt(h, x0, d + Mult(w, e), eps, x)
  {
    hide Mult;
    Increment(f(x), f(x0), g(x), g(x0), w);
    CombinationDiffers(f(x) - f(x0), g(x) - g(x0), w, d, e, x - x0, part, eps);
  }

  lemma Increment(f: real, f0: real, g: real, g0: real, w: real)
    ensures (f + Mult(w, g)) - (f0 + Mult(w, g0)) == (f - f0) + Mult(w, g - g0)
  {
  }
}
