/** The gradient is the true derivative of the summed losses. */
module AutodiffTrue {
  import opened Wrappers
  import opened Autodiff
  import opened AutodiffSum
  import opened Limits

  /** The environment in which node p has the value x. */
  function Move(e: Env, p: nat, x: real): Env {
    Env(e.leaf, (i: nat) => if i == p then x else e.input(i))
  }

  function Moved(nodes: seq<ScalarNode>, e: Env, p: nat, x: real, o: Operand, k: nat): real
    requires WellFormed(nodes) && k <= |nodes| && Before(o, k)
  {
    OpValue(nodes, Move(e, p, x), o, k)
  }

  /** Every divisor is different from zero at x. */
  ghost predicate Divides(nodes: seq<ScalarNode>, e: Env, p: nat, x: real)
    requires WellFormed(nodes)
  {
    forall k :: 0 <= k < |nodes| && nodes[k].op.Div? ==> Moved(nodes, e, p, x, Source(nodes, k, 1), k) != 0.0
  }

  // ---------------------------------------------------------------- difference quotients

  function OpSlope(nodes: seq<ScalarNode>, e: Env, p: nat, x0: real, x: real, o: Operand, k: nat): real
    requires WellFormed(nodes) && k <= |nodes| && Before(o, k)
    decreases k, 0
  {
    match o
    case Leaf(_) => 0.0
    case Node(i) => Slope(nodes, e, p, x0, x, i)
  }

  /** The increment of node k from x0 to x is this times x - x0. */
  function Slope(nodes: seq<ScalarNode>, e: Env, p: nat, x0: real, x: real, k: nat): real
    requires WellFormed(nodes) && k < |nodes|
    decreases k, 1
  {
    var src := Sources(nodes[k].op);
    assert forall j :: 0 <= j < |src| ==> Before(src[j], k);
    match nodes[k].op
    case Input => if k == p then 1.0 else 0.0
    case Dup(a) => OpSlope(nodes, e, p, x0, x, src[0], k)
    case Add(a, b) => OpSlope(nodes, e, p, x0, x, src[0], k) + OpSlope(nodes, e, p, x0, x, src[1], k)
    case Sub(a, b) => OpSlope(nodes, e, p, x0, x, src[0], k) - OpSlope(nodes, e, p, x0, x, src[1], k)
    case Mul(a, b) =>
      Mult(OpSlope(nodes, e, p, x0, x, src[0], k), Moved(nodes, e, p, x, src[1], k))
      + Mult(Moved(nodes, e, p, x0, src[0], k), OpSlope(nodes, e, p, x0, x, src[1], k))
    case Div(a, b) =>
      Quotient(OpSlope(nodes, e, p, x0, x, src[0], k)
               - Mult(Quotient(Moved(nodes, e, p, x0, src[0], k), Moved(nodes, e, p, x0, src[1], k)),
                 OpSlope(nodes, e, p, x0, x, src[1], k)),
               Moved(nodes, e, p, x, src[1], k))
    case Sqr(a) => Mult(OpSlope(nodes, e, p, x0, x, src[0], k),
      Moved(nodes, e, p, x, src[0], k) + Moved(nodes, e, p, x0, src[0], k))
    case Scale(a, s, _) => Mult(s, OpSlope(nodes, e, p, x0, x, src[0], k))
    case Neg(a) => -OpSlope(nodes, e, p, x0, x, src[0], k)
  }

  lemma QuotientOfDifference(a: real, q: real, b: real, y: real)
    ensures Quotient(a - Mult(q, b), y) == Quotient(a, y) - q * Quotient(b, y)
  {
    if y != 0.0 {
      var c := Mult(q, b);
      assert (a - c) / y == a / y - c / y;
      var r := b / y;
      assert r * y == b;
      assert (q * r) * y == c;
      assert c / y == q * r;
    }
  }

  /** At x0 itself the difference quotient is the tangent. */
  lemma {:induction false} SlopeIsTangent(nodes: seq<ScalarNode>, e: Env, p: nat, x0: real, k: nat)
    requires WellFormed(nodes) && k < |nodes|
    ensures Slope(nodes, e, p, x0, x0, k) == Tangent(nodes, Move(e, p, x0), p, k)
    decreases k
  {
    hide Quotient;
    var src := Sources(nodes[k].op);
    forall j | 0 <= j < |src|
      ensures Before(src[j], k) && OpSlope(nodes, e, p, x0, x0, src[j], k)
              == OpTangent(nodes, Move(e, p, x0), p, src[j], k)
    {
      if src[j].Node? { SlopeIsTangent(nodes, e, p, x0, src[j].i); }
    }
    match nodes[k].op
    case Div(_, _) =>
      var y := Moved(nodes, e, p, x0, src[1], k);
      QuotientOfDifference(OpSlope(nodes, e, p, x0, x0, src[0], k), Quotient(Moved(nodes, e, p, x0, src[0], k), y),
        OpSlope(nodes, e, p, x0, x0, src[1], k), y);
    case _ =>
  }

  // ---------------------------------------------------------------- smooth functions

  ghost predicate IdentityWithin(f: real -> real, q: real -> real, x0: real, near: real) {
    forall x :: Abs(x - x0) < near ==> f(x) - f(x0) == Mult(q(x), x - x0)
  }

  ghost predicate IdentityNear(f: real -> real, q: real -> real, x0: real) {
    exists near :: near > 0.0 && IdentityWithin(f, q, x0, near)
  }

  /** f and its difference quotient q are continuous at x0, and q does what its name says around x0. */
  ghost predicate Smooth(f: real -> real, q: real -> real, x0: real) {
    Continuous(f, x0) && Continuous(q, x0) && IdentityNear(f, q, x0)
  }

  lemma NearFor(f: real -> real, q: real -> real, x0: real) returns (near: real)
    requires Smooth(f, q, x0)
    ensures near > 0.0 && IdentityWithin(f, q, x0, near)
  {
    near :| near > 0.0 && IdentityWithin(f, q, x0, near);
  }

  lemma IdentityFor(f: real -> real, q: real -> real, x0: real, near: real, x: real)
    requires IdentityWithin(f, q, x0, near) && Abs(x - x0) < near
    ensures f(x) - f(x0) == Mult(q(x), x - x0)
  {
  }

  lemma SmoothConstant(f: real -> real, q: real -> real, x0: real)
    requires forall x :: f(x) == f(x0) && q(x) == 0.0
    ensures Smooth(f, q, x0)
  {
    ConstantIsContinuous(f, f(x0), x0);
    ConstantIsContinuous(q, 0.0, x0);
    assert IdentityWithin(f, q, x0, 1.0);
  }

  lemma SmoothIdentity(f: real -> real, q: real -> real, x0: real)
    requires forall x :: f(x) == x && q(x) == 1.0
    ensures Smooth(f, q, x0)
  {
    IdentityIsContinuous(f, x0);
    ConstantIsContinuous(q, 1.0, x0);
    assert IdentityWithin(f, q, x0, 1.0);
  }

  lemma SmoothScale(f: real -> real, qf: real -> real, h: real -> real, q: real -> real, s: real, bias: real, x0: real)
    requires Smooth(f, qf, x0) && forall x :: h(x) == Mult(s, f(x)) + bias && q(x) == Mult(s, qf(x))
    ensures Smooth(h, q, x0)
  {
    hide Mult;
    hide Continuous;
    hide Quotient;
    hide Abs;
    var cs, cb, sf := (x: real) => s, (x: real) => bias, (x: real) => Mult(s, f(x));
    ConstantIsContinuous(cs, s, x0);
    ConstantIsContinuous(cb, bias, x0);
    ProductIsContinuous(cs, f, sf, x0);
    SumIsContinuous(sf, cb, h, x0);
    ProductIsContinuous(cs, qf, q, x0);
    var near := NearFor(f, qf, x0);
    ScaleWithin(f, qf, h, q, s, bias, x0, near);
  }

  lemma ScaleWithin(f: real -> real, qf: real -> real, h: real -> real, q: real -> real, s: real, bias: real, x0: real,
                    near: real)
    requires IdentityWithin(f, qf, x0, near) && forall x :: h(x) == Mult(s, f(x)) + bias && q(x) == Mult(s, qf(x))
    ensures IdentityWithin(h, q, x0, near)
  {
    forall x | Abs(x - x0) < near ensures h(x) - h(x0) == Mult(q(x), x - x0) {
      hide Mult;
      hide Abs;
      IdentityFor(f, qf, x0, near, x);
      ScaleIdentity(f(x), f(x0), s, bias, qf(x), x - x0);
    }
  }

  lemma ScaleIdentity(f: real, f0: real, s: real, bias: real, q: real, t: real)
    requires f - f0 == Mult(q, t)
    ensures (Mult(s, f) + bias) - (Mult(s, f0) + bias) == Mult(Mult(s, q), t)
  {
    calc {
      s * f - s * f0;
      s * (f - f0);
      s * (q * t);
      (s * q) * t;
    }
  }

  lemma SmoothSum(f: real -> real, qf: real -> real, g: real -> real, qg: real -> real, h: real -> real,
                  q: real -> real, x0: real)
    requires Smooth(f, qf, x0) && Smooth(g, qg, x0) && forall x :: h(x) == f(x) + g(x) && q(x) == qf(x) + qg(x)
    ensures Smooth(h, q, x0)
  {
    SumIsContinuous(f, g, h, x0);
    SumIsContinuous(qf, qg, q, x0);
    var a :| a > 0.0 && IdentityWithin(f, qf, x0, a);
    var b :| b > 0.0 && IdentityWithin(g, qg, x0, b);
    var near := Smaller(a, b);
    forall x | Abs(x - x0) < near ensures h(x) - h(x0) == Mult(q(x), x - x0) { SumIdentity(qf(x), qg(x), x - x0); }
    assert IdentityWithin(h, q, x0, near);
  }

  lemma SumIdentity(a: real, b: real, t: real)
    ensures Mult(a, t) + Mult(b, t) == Mult(a + b, t)
  {
  }

  /** The slope of a product, as a sum of two products. */
  lemma ProductSlopeContinuous(f0: real, qf: real -> real, g: real -> real, qg: real -> real, q: real -> real, x0: real)
    requires Continuous(qf, x0) && Continuous(g, x0) && Continuous(qg, x0)
    requires forall x :: q(x) == Mult(qf(x), g(x)) + Mult(f0, qg(x))
    ensures Continuous(q, x0)
  {
    hide Mult;
    hide Continuous;
    var u, v := (x: real) => Mult(qf(x), g(x)), (x: real) => Mult(f0, qg(x));
    ProductIsContinuous(qf, g, u, x0);
    MultipleIsContinuous(f0, qg, v, x0);
    SumIsContinuous(u, v, q, x0);
  }

  lemma MultipleIsContinuous(s: real, f: real -> real, h: real -> real, x0: real)
    requires Continuous(f, x0) && forall x :: h(x) == Mult(s, f(x))
    ensures Continuous(h, x0)
  {
    hide Mult;
    hide Continuous;
    var c := (x: real) => s;
    ConstantIsContinuous(c, s, x0);
    ProductIsContinuous(c, f, h, x0);
  }

  lemma SmoothParts(f: real -> real, q: real -> real, x0: real)
    requires Smooth(f, q, x0)
    ensures Continuous(f, x0) && Continuous(q, x0)
  {
  }

  lemma SmoothFromParts(f: real -> real, q: real -> real, x0: real, near: real)
    requires Continuous(f, x0) && Continuous(q, x0) && near > 0.0 && IdentityWithin(f, q, x0, near)
    ensures Smooth(f, q, x0)
  {
  }

  lemma SmallerPositive(a: real, b: real)
    requires a > 0.0 && b > 0.0
    ensures Smaller(a, b) > 0.0
  {
  }

  lemma SmoothProduct(f: real -> real, qf: real -> real, g: real -> real, qg: real -> real, h: real -> real,
                      q: real -> real, x0: real)
    requires Smooth(f, qf, x0) && Smooth(g, qg, x0)
    requires forall x :: h(x) == Mult(f(x), g(x)) && q(x) == Mult(qf(x), g(x)) + Mult(f(x0), qg(x))
    ensures Smooth(h, q, x0)
  {
    hide Smooth;
    hide Mult;
    hide Continuous;
    hide IdentityWithin;
    SmoothParts(f, qf, x0);
    SmoothParts(g, qg, x0);
    ProductIsContinuous(f, g, h, x0);
    ProductSlopeContinuous(f(x0), qf, g, qg, q, x0);
    var a := NearFor(f, qf, x0);
    var b := NearFor(g, qg, x0);
    ProductWithin(f, qf, g, qg, h, q, x0, a, b);
    SmallerPositive(a, b);
    SmoothFromParts(h, q, x0, Smaller(a, b));
  }

  lemma ProductWithin(f: real -> real, qf: real -> real, g: real -> real, qg: real -> real, h: real -> real,
                      q: real -> real, x0: real, a: real, b: real)
    requires IdentityWithin(f, qf, x0, a) && IdentityWithin(g, qg, x0, b)
    requires forall x :: h(x) == Mult(f(x), g(x)) && q(x) == Mult(qf(x), g(x)) + Mult(f(x0), qg(x))
    ensures IdentityWithin(h, q, x0, Smaller(a, b))
  {
    forall x | Abs(x - x0) < Smaller(a, b) ensures h(x) - h(x0) == Mult(q(x), x - x0) {
      hide Mult;
      hide Abs;
      IdentityFor(f, qf, x0, a, x);
      IdentityFor(g, qg, x0, b, x);
      ProductIdentity(f(x), f(x0), g(x), g(x0), qf(x), qg(x), x - x0);
    }
  }

  lemma ProductIdentity(f: real, f0: real, g: real, g0: real, a: real, b: real, t: real)
    requires f - f0 == Mult(a, t) && g - g0 == Mult(b, t)
    ensures Mult(f, g) - Mult(f0, g0) == Mult(Mult(a, g) + Mult(f0, b), t)
  {
    calc {
      f * g - f0 * g0;
      (f - f0) * g + f0 * (g - g0);
      (a * t) * g + f0 * (b * t);
      (a * g) * t + (f0 * b) * t;
    }
  }

  lemma QuotientByReciprocal(x: real, y: real)
    ensures Quotient(x, y) == Mult(x, Quotient(1.0, y))
  {
  }

  function Reciprocal(g: real -> real): real -> real {
    (x: real) => Quotient(1.0, g(x))
  }

  lemma ReciprocalContinuous(g: real -> real, x0: real)
    requires Continuous(g, x0) && g(x0) != 0.0
    ensures Continuous(Reciprocal(g), x0)
  {
    hide Continuous;
    ReciprocalIsContinuous(g, Reciprocal(g), x0);
  }

  ghost predicate IsQuotient(h: real -> real, f: real -> real, g: real -> real) {
    forall x :: h(x) == Quotient(f(x), g(x))
  }

  lemma QuotientIsContinuous(f: real -> real, g: real -> real, h: real -> real, x0: real)
    requires Continuous(f, x0) && Continuous(g, x0) && g(x0) != 0.0 && IsQuotient(h, f, g)
    ensures Continuous(h, x0)
  {
    hide Continuous;
    ReciprocalContinuous(g, x0);
    hide Mult;
    hide Quotient;
    hide Reciprocal;
    QuotientsAreProducts(f, g, h);
    hide IsQuotient;
    ProductIsContinuous(f, Reciprocal(g), h, x0);
  }

  lemma QuotientsAreProducts(f: real -> real, g: real -> real, h: real -> real)
    requires IsQuotient(h, f, g)
    ensures forall x :: h(x) == Mult(f(x), Reciprocal(g)(x))
  {
    forall x ensures h(x) == Mult(f(x), Reciprocal(g)(x)) { QuotientByReciprocal(f(x), g(x)); }
  }

  /** The numerator of the slope of a quotient. */
  function Numerator(k: real, qf: real -> real, qg: real -> real): real -> real {
    (x: real) => qf(x) + Mult(-k, qg(x))
  }

  lemma NumeratorContinuous(k: real, qf: real -> real, qg: real -> real, x0: real)
    requires Continuous(qf, x0) && Continuous(qg, x0)
    ensures Continuous(Numerator(k, qf, qg), x0)
  {
    hide Continuous;
    hide Mult;
    var u := (x: real) => Mult(-k, qg(x));
    MultipleIsContinuous(-k, qg, u, x0);
    SumIsContinuous(qf, u, Numerator(k, qf, qg), x0);
  }

  lemma NumeratorMeaning(k: real, qf: real -> real, qg: real -> real, g: real -> real, q: real -> real)
    requires forall x :: q(x) == Quotient(qf(x) - Mult(k, qg(x)), g(x))
    ensures IsQuotient(q, Numerator(k, qf, qg), g)
  {
    hide Quotient;
    hide Mult;
    hide Numerator;
    forall x ensures q(x) == Quotient(Numerator(k, qf, qg)(x), g(x)) { NumeratorAt(k, qf, qg, x); }
  }

  lemma NumeratorAt(k: real, qf: real -> real, qg: real -> real, x: real)
    ensures Numerator(k, qf, qg)(x) == qf(x) - Mult(k, qg(x))
  {
    hide Mult;
    NegativeFactor(k, qg(x));
  }

  /** The slope of a quotient is continuous. */
  lemma QuotientSlopeContinuous(k: real, qf: real -> real, g: real -> real, qg: real -> real, q: real -> real, x0: real)
    requires Continuous(qf, x0) && Continuous(g, x0) && Continuous(qg, x0) && g(x0) != 0.0
    requires IsQuotient(q, Numerator(k, qf, qg), g)
    ensures Continuous(q, x0)
  {
    hide Continuous;
    hide Mult;
    hide Quotient;
    hide Numerator;
    hide IsQuotient;
    NumeratorContinuous(k, qf, qg, x0);
    QuotientIsContinuous(Numerator(k, qf, qg), g, q, x0);
  }

  lemma QuotientPartsContinuous(f: real -> real, qf: real -> real, g: real -> real, qg: real -> real, h: real -> real,
                                q: real -> real, x0: real)
    requires Continuous(f, x0) && Continuous(qf, x0) && Continuous(g, x0) && Continuous(qg, x0) && g(x0) != 0.0
    requires forall x :: h(x) == Quotient(f(x), g(x)) && q(x)
                         == Quotient(qf(x) - Mult(Quotient(f(x0), g(x0)), qg(x)), g(x))
    ensures Continuous(h, x0) && Continuous(q, x0)
  {
    hide Continuous;
    hide Mult;
    hide Quotient;
    hide Numerator;
    var k := Quotient(f(x0), g(x0));
    NumeratorMeaning(k, qf, qg, g, q);
    QuotientIsContinuous(f, g, h, x0);
    QuotientSlopeContinuous(k, qf, g, qg, q, x0);
  }

  lemma SmoothQuotient(f: real -> real, qf: real -> real, g: real -> real, qg: real -> real, h: real -> real,
                       q: real -> real, x0: real)
    requires Smooth(f, qf, x0) && Smooth(g, qg, x0) && g(x0) != 0.0
    requires forall x :: h(x) == Quotient(f(x), g(x)) && q(x)
                         == Quotient(qf(x) - Mult(Quotient(f(x0), g(x0)), qg(x)), g(x))
    ensures Smooth(h, q, x0)
  {
    hide Smooth;
    hide Mult;
    hide Continuous;
    hide Quotient;
    hide IdentityWithin;
    SmoothParts(f, qf, x0);
    SmoothParts(g, qg, x0);
    QuotientPartsContinuous(f, qf, g, qg, h, q, x0);
    var a := NearFor(f, qf, x0);
    var b := NearFor(g, qg, x0);
    var z := NonzeroAround(g, x0);
    QuotientWithin(f, qf, g, qg, h, q, x0, a, b, z);
    SmallerPositive(a, b);
    SmallerPositive(z, Smaller(a, b));
    SmoothFromParts(h, q, x0, Smaller(z, Smaller(a, b)));
  }

  lemma QuotientWithin(f: real -> real, qf: real -> real, g: real -> real, qg: real -> real, h: real -> real,
                       q: real -> real, x0: real,
                       a: real, b: real, z: real)
    requires IdentityWithin(f, qf, x0, a) && IdentityWithin(g, qg, x0, b) && g(x0) != 0.0 && forall x ::
             Abs(x - x0) < z ==> g(x) != 0.0
    requires forall x :: h(x) == Quotient(f(x), g(x)) && q(x)
                         == Quotient(qf(x) - Mult(Quotient(f(x0), g(x0)), qg(x)), g(x))
    ensures IdentityWithin(h, q, x0, Smaller(z, Smaller(a, b)))
  {
    forall x | Abs(x - x0) < Smaller(z, Smaller(a, b)) ensures h(x) - h(x0) == Mult(q(x), x - x0) {
      hide Mult;
      hide Abs;
      hide Quotient;
      IdentityFor(f, qf, x0, a, x);
      IdentityFor(g, qg, x0, b, x);
      QuotientIdentity(f(x), f(x0), g(x), g(x0), qf(x), qg(x), x - x0);
    }
  }

  lemma NegativeFactor(k: real, x: real)
    ensures Mult(-k, x) == -Mult(k, x)
  {
  }

  lemma QuotientIdentity(f: real, f0: real, g: real, g0: real, a: real, b: real, t: real)
    requires f - f0 == Mult(a, t) && g - g0 == Mult(b, t) && g != 0.0 && g0 != 0.0
    ensures Quotient(f, g) - Quotient(f0, g0) == Mult(Quotient(a - Mult(Quotient(f0, g0), b), g), t)
  {
    var k, h := f0 / g0, f / g;
    assert k * g0 == f0 && h * g == f;
    var n := a - k * b;
    var d := n / g;
    assert d * g == n;
    calc {
      (h - k) * g;
      f - k * g;
      (f0 + a * t) - k * (g0 + b * t);
      a * t - (k * b) * t;
      n * t;
      (d * g) * t;
      (d * t) * g;
    }
    CancelFactor(h - k, d * t, g);
  }

  lemma CancelFactor(x: real, y: real, g: real)
    requires x * g == y * g && g != 0.0
    ensures x == y
  {
    assert (x - y) * g == 0.0;
  }

  // ---------------------------------------------------------------- the nodes of a graph are smooth

  function ValueFn(nodes: seq<ScalarNode>, e: Env, p: nat, k: nat): real -> real
    requires WellFormed(nodes) && k < |nodes|
  {
    (x: real) => Value(nodes, Move(e, p, x), k)
  }

  function SlopeFn(nodes: seq<ScalarNode>, e: Env, p: nat, x0: real, k: nat): real -> real
    requires WellFormed(nodes) && k < |nodes|
  {
    (x: real) => Slope(nodes, e, p, x0, x, k)
  }

  function OpValueFn(nodes: seq<ScalarNode>, e: Env, p: nat, o: Operand, k: nat): real -> real
    requires WellFormed(nodes) && k <= |nodes| && Before(o, k)
  {
    (x: real) => Moved(nodes, e, p, x, o, k)
  }

  function OpSlopeFn(nodes: seq<ScalarNode>, e: Env, p: nat, x0: real, o: Operand, k: nat): real -> real
    requires WellFormed(nodes) && k <= |nodes| && Before(o, k)
  {
    (x: real) => OpSlope(nodes, e, p, x0, x, o, k)
  }

  ghost predicate NodeSmooth(nodes: seq<ScalarNode>, e: Env, p: nat, x0: real, k: nat)
    requires WellFormed(nodes) && k < |nodes|
  {
    Smooth(ValueFn(nodes, e, p, k), SlopeFn(nodes, e, p, x0, k), x0)
  }

  ghost predicate OpSmooth(nodes: seq<ScalarNode>, e: Env, p: nat, x0: real, o: Operand, k: nat)
    requires WellFormed(nodes) && k <= |nodes| && Before(o, k)
  {
    Smooth(OpValueFn(nodes, e, p, o, k), OpSlopeFn(nodes, e, p, x0, o, k), x0)
  }

  /** Smoothness only depends on values. */
  lemma SmoothSame(f: real -> real, q: real -> real, h: real -> real, r: real -> real, x0: real)
    requires Smooth(f, q, x0) && forall x :: h(x) == f(x) && r(x) == q(x)
    ensures Smooth(h, r, x0)
  {
    var zero := (x: real) => 0.0;
    SmoothConstant(zero, zero, x0);
    SmoothSum(f, q, zero, zero, h, r, x0);
  }

  lemma OperandSmooth(nodes: seq<ScalarNode>, e: Env, p: nat, x0: real, o: Operand, k: nat)
    requires WellFormed(nodes) && k <= |nodes| && Before(o, k) && (o.Node? ==> NodeSmooth(nodes, e, p, x0, o.i))
    ensures OpSmooth(nodes, e, p, x0, o, k)
  {
    hide Smooth;
    match o
    case Leaf(l) => SmoothConstant(OpValueFn(nodes, e, p, o, k), OpSlopeFn(nodes, e, p, x0, o, k), x0);
    case Node(i) => SmoothSame(ValueFn(nodes, e, p, i), SlopeFn(nodes, e, p, x0, i), OpValueFn(nodes, e, p, o, k),
      OpSlopeFn(nodes, e, p, x0, o, k), x0);
  }

  lemma InputSmooth(nodes: seq<ScalarNode>, e: Env, p: nat, x0: real, k: nat)
    requires WellFormed(nodes) && k < |nodes| && nodes[k].op.Input?
    ensures NodeSmooth(nodes, e, p, x0, k)
  {
    hide Smooth;
    var f, q := ValueFn(nodes, e, p, k), SlopeFn(nodes, e, p, x0, k);
    if k == p { SmoothIdentity(f, q, x0); } else { SmoothConstant(f, q, x0); }
  }

  lemma ScaleSmooth(nodes: seq<ScalarNode>, e: Env, p: nat, x0: real, k: nat, s: real, bias: real)
    requires WellFormed(nodes) && k < |nodes| && |Sources(nodes[k].op)| == 1
             && OpSmooth(nodes, e, p, x0, Source(nodes, k, 0), k)
    requires (nodes[k].op.Dup? && s == 1.0 && bias == 0.0) || (nodes[k].op.Neg? && s == -1.0 && bias == 0.0)
      || (nodes[k].op.Scale? && s == nodes[k].op.s && bias == nodes[k].op.bias)
    ensures NodeSmooth(nodes, e, p, x0, k)
  {
    hide Smooth;
    var a := Source(nodes, k, 0);
    SmoothScale(OpValueFn(nodes, e, p, a, k), OpSlopeFn(nodes, e, p, x0, a, k), ValueFn(nodes, e, p, k),
      SlopeFn(nodes, e, p, x0, k), s, bias, x0);
  }

  lemma SqrSmooth(nodes: seq<ScalarNode>, e: Env, p: nat, x0: real, k: nat)
    requires WellFormed(nodes) && k < |nodes| && nodes[k].op.Sqr? && OpSmooth(nodes, e, p, x0, Source(nodes, k, 0), k)
    ensures NodeSmooth(nodes, e, p, x0, k)
  {
    hide Smooth;
    var a := Source(nodes, k, 0);
    SquareIsSmooth(OpValueFn(nodes, e, p, a, k), OpSlopeFn(nodes, e, p, x0, a, k), ValueFn(nodes, e, p, k),
      SlopeFn(nodes, e, p, x0, k), x0);
  }

  lemma SquareIsSmooth(f: real -> real, q: real -> real, h: real -> real, r: real -> real, x0: real)
    requires Smooth(f, q, x0) && forall x :: h(x) == f(x) * f(x) && r(x) == Mult(q(x), f(x) + f(x0))
    ensures Smooth(h, r, x0)
  {
    hide Smooth;
    forall x ensures h(x) == Mult(f(x), f(x)) && r(x) == Mult(q(x), f(x)) + Mult(f(x0),
        q(x)) { SqrSlope(q(x), f(x), f(x0)); }
    hide Mult;
    SmoothProduct(f, q, f, q, h, r, x0);
  }

  lemma SqrSlope(q: real, f: real, f0: real)
    ensures Mult(q, f + f0) == Mult(q, f) + Mult(f0, q) && f * f == Mult(f, f)
  {
  }

  lemma AddSmooth(nodes: seq<ScalarNode>, e: Env, p: nat, x0: real, k: nat)
    requires WellFormed(nodes) && k < |nodes| && nodes[k].op.Add?
    requires OpSmooth(nodes, e, p, x0, Source(nodes, k, 0), k) && OpSmooth(nodes, e, p, x0, Source(nodes, k, 1), k)
    ensures NodeSmooth(nodes, e, p, x0, k)
  {
    hide Smooth;
    hide Quotient;
    hide Mult;
    var a, b := Source(nodes, k, 0), Source(nodes, k, 1);
    var f, qf, g, qg := OpValueFn(nodes, e, p, a, k), OpSlopeFn(nodes, e, p, x0, a, k), OpValueFn(nodes, e, p, b, k),
      OpSlopeFn(nodes, e, p, x0, b, k);
    var h, q := ValueFn(nodes, e, p, k), SlopeFn(nodes, e, p, x0, k);
    SmoothSum(f, qf, g, qg, h, q, x0);
  }

  lemma SubSmooth(nodes: seq<ScalarNode>, e: Env, p: nat, x0: real, k: nat)
    requires WellFormed(nodes) && k < |nodes| && nodes[k].op.Sub?
    requires OpSmooth(nodes, e, p, x0, Source(nodes, k, 0), k) && OpSmooth(nodes, e, p, x0, Source(nodes, k, 1), k)
    ensures NodeSmooth(nodes, e, p, x0, k)
  {
    hide Smooth;
    hide Quotient;
    hide Mult;
    var a, b := Source(nodes, k, 0), Source(nodes, k, 1);
    var f, qf, g, qg := OpValueFn(nodes, e, p, a, k), OpSlopeFn(nodes, e, p, x0, a, k), OpValueFn(nodes, e, p, b, k),
      OpSlopeFn(nodes, e, p, x0, b, k);
    var h, q := ValueFn(nodes, e, p, k), SlopeFn(nodes, e, p, x0, k);
    DifferenceIsSmooth(f, qf, g, qg, h, q, x0);
  }

  lemma DifferenceIsSmooth(f: real -> real, qf: real -> real, g: real -> real, qg: real -> real, h: real -> real,
                           q: real -> real, x0: real)
    requires Smooth(f, qf, x0) && Smooth(g, qg, x0) && forall x :: h(x) == f(x) - g(x) && q(x) == qf(x) - qg(x)
    ensures Smooth(h, q, x0)
  {
    hide Smooth;
    var n, qn := (x: real) => -g(x), (x: real) => -qg(x);
    forall x ensures n(x) == Mult(-1.0, g(x)) + 0.0 && qn(x) == Mult(-1.0, qg(x)) {}
    hide Mult;
    SmoothScale(g, qg, n, qn, -1.0, 0.0, x0);
    SmoothSum(f, qf, n, qn, h, q, x0);
  }

  lemma MulSmooth(nodes: seq<ScalarNode>, e: Env, p: nat, x0: real, k: nat)
    requires WellFormed(nodes) && k < |nodes| && nodes[k].op.Mul?
    requires OpSmooth(nodes, e, p, x0, Source(nodes, k, 0), k) && OpSmooth(nodes, e, p, x0, Source(nodes, k, 1), k)
    ensures NodeSmooth(nodes, e, p, x0, k)
  {
    hide Smooth;
    hide Quotient;
    hide Mult;
    var a, b := Source(nodes, k, 0), Source(nodes, k, 1);
    var f, qf, g, qg := OpValueFn(nodes, e, p, a, k), OpSlopeFn(nodes, e, p, x0, a, k), OpValueFn(nodes, e, p, b, k),
      OpSlopeFn(nodes, e, p, x0, b, k);
    var h, q := ValueFn(nodes, e, p, k), SlopeFn(nodes, e, p, x0, k);
    MulAt(nodes, e, p, k);
    SmoothProduct(f, qf, g, qg, h, q, x0);
  }

  lemma MulAt(nodes: seq<ScalarNode>, e: Env, p: nat, k: nat)
    requires WellFormed(nodes) && k < |nodes| && nodes[k].op.Mul?
    ensures forall x :: ValueFn(nodes, e, p, k)(x)
              == Mult(OpValueFn(nodes, e, p, Source(nodes, k, 0), k)(x),
                OpValueFn(nodes, e, p, Source(nodes, k, 1), k)(x))
  {
  }

  lemma DivSmooth(nodes: seq<ScalarNode>, e: Env, p: nat, x0: real, k: nat)
    requires WellFormed(nodes) && k < |nodes| && nodes[k].op.Div?
    requires OpSmooth(nodes, e, p, x0, Source(nodes, k, 0), k) && OpSmooth(nodes, e, p, x0, Source(nodes, k, 1), k)
    requires Moved(nodes, e, p, x0, Source(nodes, k, 1), k) != 0.0
    ensures NodeSmooth(nodes, e, p, x0, k)
  {
    hide Smooth;
    hide Quotient;
    hide Mult;
    var a, b := Source(nodes, k, 0), Source(nodes, k, 1);
    var f, qf, g, qg := OpValueFn(nodes, e, p, a, k), OpSlopeFn(nodes, e, p, x0, a, k), OpValueFn(nodes, e, p, b, k),
      OpSlopeFn(nodes, e, p, x0, b, k);
    var h, q := ValueFn(nodes, e, p, k), SlopeFn(nodes, e, p, x0, k);
    SmoothQuotient(f, qf, g, qg, h, q, x0);
  }

  /** Where no divisor vanishes, every node is a smooth function of every input. */
  lemma {:induction false} EveryNodeSmooth(nodes: seq<ScalarNode>, e: Env, p: nat, x0: real, k: nat)
    requires WellFormed(nodes) && k < |nodes| && Divides(nodes, e, p, x0)
    ensures NodeSmooth(nodes, e, p, x0, k)
    decreases k
  {
    hide NodeSmooth;
    hide OpSmooth;
    forall j | 0 <= j < |Sources(nodes[k].op)| ensures OpSmooth(nodes, e, p, x0, Source(nodes, k, j), k) {
      var o := Source(nodes, k, j);
      if o.Node? { EveryNodeSmooth(nodes, e, p, x0, o.i); }
      OperandSmooth(nodes, e, p, x0, o, k);
    }
    match nodes[k].op
    case Input => InputSmooth(nodes, e, p, x0, k);
    case Dup(_) => ScaleSmooth(nodes, e, p, x0, k, 1.0, 0.0);
    case Neg(_) => ScaleSmooth(nodes, e, p, x0, k, -1.0, 0.0);
    case Scale(_, s, bias) => ScaleSmooth(nodes, e, p, x0, k, s, bias);
    case Sqr(_) => SqrSmooth(nodes, e, p, x0, k);
    case Add(_, _) => AddSmooth(nodes, e, p, x0, k);
    case Sub(_, _) => SubSmooth(nodes, e, p, x0, k);
    case Mul(_, _) => MulSmooth(nodes, e, p, x0, k);
    case Div(_, _) => DivSmooth(nodes, e, p, x0, k);
  }

  /** The tangent of every node is the derivative of its value. */
  lemma TangentIsDerivative(nodes: seq<ScalarNode>, e: Env, p: nat, x0: real, k: nat)
    requires WellFormed(nodes) && k < |nodes| && Divides(nodes, e, p, x0)
    ensures HasDerivative(ValueFn(nodes, e, p, k), x0, Tangent(nodes, Move(e, p, x0), p, k))
  {
    hide Continuous;
    EveryNodeSmooth(nodes, e, p, x0, k);
    var f, q := ValueFn(nodes, e, p, k), SlopeFn(nodes, e, p, x0, k);
    var near := NearFor(f, q, x0);
    SlopeIsTangent(nodes, e, p, x0, k);
    SlopeGivesDerivative(f, q, x0, near);
  }

  // ---------------------------------------------------------------- the summed losses

  predicate OtherLoss(nodes: seq<ScalarNode>, p: nat, k: nat)
    requires k < |nodes|
  {
    k != p && nodes[k].loss
  }

  /** The sum of the losses below k, as a function of the value of node p. */
  function LossSum(nodes: seq<ScalarNode>, e: Env, p: nat, k: nat): real -> real
    requires WellFormed(nodes) && k <= |nodes|
  {
    (x: real) => LossAt(nodes, e, p, x, k)
  }

  function LossAt(nodes: seq<ScalarNode>, e: Env, p: nat, x: real, k: nat): real
    requires WellFormed(nodes) && k <= |nodes|
  {
    if k == 0 then 0.0 else LossAt(nodes, e, p, x, k - 1)
                            + (if OtherLoss(nodes, p, k - 1) then Value(nodes, Move(e, p, x), k - 1) else 0.0)
  }

  function LossTangent(nodes: seq<ScalarNode>, e: Env, p: nat, k: nat): real
    requires WellFormed(nodes) && k <= |nodes|
  {
    if k == 0 then 0.0 else LossTangent(nodes, e, p, k - 1)
                            + (if OtherLoss(nodes, p, k - 1) then Tangent(nodes, e, p, k - 1) else 0.0)
  }

  lemma DerivativeSame(f: real -> real, h: real -> real, x0: real, d: real)
    requires HasDerivative(f, x0, d) && forall x :: h(x) == f(x)
    ensures HasDerivative(h, x0, d)
  {
    forall eps | eps > 0.0 ensures NearlyLinearSomewhere(h, x0, d, eps) {
      hide HasDerivative;
      var delta := LinearFor(f, x0, d, eps);
      forall x | Abs(x - x0) < delta ensures NearlyAt(h, x0, d, eps, x) { assert NearlyAt(f, x0, d, eps, x); }
      assert NearlyLinear(h, x0, d, delta, eps);
    }
  }

  lemma AddOneLoss(f: real -> real, g: real -> real, h: real -> real, x0: real, d: real, e: real)
    requires HasDerivative(f, x0, d) && HasDerivative(g, x0, e) && forall x :: h(x) == f(x) + g(x)
    ensures HasDerivative(h, x0, d + e)
  {
    hide HasDerivative;
    forall x ensures h(x) == f(x) + Mult(1.0, g(x)) {}
    assert d + Mult(1.0, e) == d + e;
    CombinationHasDerivative(f, g, h, 1.0, x0, d, e);
  }

  lemma {:induction false} LossTangentIsDerivative(nodes: seq<ScalarNode>, e: Env, p: nat, x0: real, k: nat)
    requires WellFormed(nodes) && k <= |nodes| && Divides(nodes, e, p, x0)
    ensures HasDerivative(LossSum(nodes, e, p, k), x0, LossTangent(nodes, Move(e, p, x0), p, k))
  {
    hide HasDerivative;
    hide Tangent;
    hide Value;
    if k == 0 {
      ConstantHasDerivative(LossSum(nodes, e, p, 0), x0);
    } else {
      LossTangentIsDerivative(nodes, e, p, x0, k - 1);
      var d := LossTangent(nodes, Move(e, p, x0), p, k - 1);
      if OtherLoss(nodes, p, k - 1) {
        TangentIsDerivative(nodes, e, p, x0, k - 1);
        AddOneLoss(LossSum(nodes, e, p, k - 1), ValueFn(nodes, e, p, k - 1), LossSum(nodes, e, p, k), x0, d,
          Tangent(nodes, Move(e, p, x0), p, k - 1));
      } else {
        DerivativeSame(LossSum(nodes, e, p, k - 1), LossSum(nodes, e, p, k), x0, d);
      }
    }
  }

  /** Accumulators of losses start at one (ggml_graph_reset); other nodes that are no parameters start at zero. */
  ghost predicate AccsReset(nodes: seq<ScalarNode>, acc: nat -> real) {
    forall i :: 0 <= i < |nodes| ==> if nodes[i].loss then acc(i) == 1.0 else nodes[i].op.Input? || acc(i) == 0.0
  }

  lemma {:induction false} AccumulatedIsLossTangent(nodes: seq<ScalarNode>, e: Env, acc: nat -> real,
                                                    provided: seq<bool>, p: nat, k: nat)
    requires WellFormed(nodes) && |nodes| == |provided| && k <= |nodes| && p < |nodes| && nodes[p].param
             && AccsReset(nodes, acc)
    ensures Accumulated(nodes, e, acc, provided, p, k)
              == LossTangent(nodes, e, p, k) + if p < k && HasAcc(nodes, provided, NeededAll(nodes), p) then acc(p)
                else 0.0
  {
    if k > 0 {
      AccumulatedIsLossTangent(nodes, e, acc, provided, p, k - 1);
      var i := k - 1;
      if i == p { assert Tangent(nodes, e, p, p) == 1.0; }
      if nodes[i].loss { assert Needed(nodes, i); }
      if nodes[i].op.Input? && i != p { assert Tangent(nodes, e, p, i) == 0.0; }
      WeightCases(acc(i), Tangent(nodes, e, p, i));
    }
  }

  lemma WeightCases(g: real, t: real)
    ensures Weight(1.0, t) == t && Weight(0.0, t) == 0.0 && Weight(g, 1.0) == g && Weight(g, 0.0) == 0.0
  {
  }

  /** Reverse mode is correct: wherever no divisor vanishes, the backward pass leaves in the gradient of every parameter
      the initial contents of its accumulator plus the derivative of the sum of the losses with respect to the
      parameter. */
  lemma GradientIsTrueDerivative(nodes: seq<ScalarNode>, e: Env, acc: nat -> real, provided: seq<bool>, p: nat,
                                 x0: real)
    requires WellFormed(nodes) && |nodes| == |provided| && p < |nodes| && nodes[p].param && AccsReset(nodes, acc)
             && Divides(nodes, e, p, x0)
    ensures var r := BuildBackward(nodes, provided);
            var own := if HasAcc(nodes, provided, NeededAll(nodes), p) then acc(p) else 0.0;
            && GradsOk(nodes, r)
            && HasDerivative(LossSum(nodes, e, p, |nodes|), x0, At(nodes, Move(e, p, x0), acc, r, p) - own)
  {
    hide HasDerivative;
    hide BuildBackward;
    GradientIsAccumulatedTangent(nodes, Move(e, p, x0), acc, provided, p);
    AccumulatedIsLossTangent(nodes, Move(e, p, x0), acc, provided, p, |nodes|);
    LossTangentIsDerivative(nodes, e, p, x0, |nodes|);
  }
}
