/** The backward pass conserves the weighted sum of gradients, so it ends with the accumulated tangent of every
    parameter. */
module AutodiffSum {
  import opened Wrappers
  import opened Autodiff

  // ---------------------------------------------------------------- tangents

  /** How fast node k moves when node p moves, by the differentiation rules of the operations. */
  function OpTangent(nodes: seq<ScalarNode>, e: Env, p: nat, o: Operand, k: nat): real
    requires WellFormed(nodes) && k <= |nodes| && Before(o, k)
    decreases k, 0
  {
    match o
    case Leaf(_) => 0.0
    case Node(i) => Tangent(nodes, e, p, i)
  }

  function Tangent(nodes: seq<ScalarNode>, e: Env, p: nat, k: nat): real
    requires WellFormed(nodes) && k < |nodes|
    decreases k, 1
  {
    var src := Sources(nodes[k].op);
    assert forall j :: 0 <= j < |src| ==> Before(src[j], k);
    match nodes[k].op
    case Input => if k == p then 1.0 else 0.0
    case Dup(a) => OpTangent(nodes, e, p, src[0], k)
    case Add(a, b) => OpTangent(nodes, e, p, src[0], k) + OpTangent(nodes, e, p, src[1], k)
    case Sub(a, b) => OpTangent(nodes, e, p, src[0], k) - OpTangent(nodes, e, p, src[1], k)
    case Mul(a, b) =>
      OpTangent(nodes, e, p, src[0], k) * OpValue(nodes, e, src[1], k)
        + OpValue(nodes, e, src[0], k) * OpTangent(nodes, e, p, src[1], k)
    case Div(a, b) =>
      var x, y := OpValue(nodes, e, src[0], k), OpValue(nodes, e, src[1], k);
      Quotient(OpTangent(nodes, e, p, src[0], k), y) - Quotient(x, y) * Quotient(OpTangent(nodes, e, p, src[1], k), y)
    case Sqr(a) => 2.0 * OpValue(nodes, e, src[0], k) * OpTangent(nodes, e, p, src[0], k)
    case Scale(a, s, _) => s * OpTangent(nodes, e, p, src[0], k)
    case Neg(a) => -OpTangent(nodes, e, p, src[0], k)
  }

  /** Pruning is safe: a node that needs no gradient does not depend on any parameter. */
  lemma {:induction false} UnneededIsConstant(nodes: seq<ScalarNode>, e: Env, p: nat, k: nat)
    requires WellFormed(nodes) && p < |nodes| && nodes[p].param && k < |nodes| && !Needed(nodes, k)
    ensures Tangent(nodes, e, p, k) == 0.0
    decreases k
  {
    var src := Sources(nodes[k].op);
    forall j | 0 <= j < |src| ensures Before(src[j], k) && OpTangent(nodes, e, p, src[j], k) == 0.0 {
      if src[j].Node? { UnneededIsConstant(nodes, e, p, src[j].i); }
    }
    if nodes[k].op.Input? { assert k != p; }
  }

  lemma OpLevel(nodes: seq<ScalarNode>, e: Env, p: nat, o: Operand, k: nat)
    requires WellFormed(nodes) && k <= |nodes| && Before(o, k)
    ensures Before(o, |nodes|)
    ensures OpValue(nodes, e, o, |nodes|) == OpValue(nodes, e, o, k)
            && OpTangent(nodes, e, p, o, |nodes|) == OpTangent(nodes, e, p, o, k)
  {
  }

  // ---------------------------------------------------------------- weighted sums

  ghost predicate GradsOk(nodes: seq<ScalarNode>, grads: Grads) {
    |grads| == |nodes| && forall i :: 0 <= i < |grads| && grads[i].Some? ==> GradOk(grads[i].value, |nodes|)
  }

  /** A product, named so that sums of products can be handled without multiplying out. */
  function Weight(g: real, t: real): real {
    g * t
  }

  function At(nodes: seq<ScalarNode>, e: Env, acc: nat -> real, grads: Grads, i: nat): real
    requires WellFormed(nodes) && GradsOk(nodes, grads) && i < |nodes|
  {
    if grads[i].Some? then GradValue(nodes, e, acc, grads[i].value) else 0.0
  }

  /** Gradients times tangents over the nodes below k. */
  function Weighted(nodes: seq<ScalarNode>, e: Env, acc: nat -> real, grads: Grads, p: nat, k: nat): real
    requires WellFormed(nodes) && GradsOk(nodes, grads) && k <= |nodes|
  {
    if k == 0 then 0.0
    else Weighted(nodes, e, acc, grads, p, k - 1) + Weight(At(nodes, e, acc, grads, k - 1), Tangent(nodes, e, p, k - 1))
  }

  lemma {:induction false} WeightedUpdate(nodes: seq<ScalarNode>, e: Env, acc: nat -> real, grads: Grads, p: nat,
                                          k: nat, i: nat, g: Grad, d: real)
    requires WellFormed(nodes) && GradsOk(nodes, grads) && k <= |nodes| && i < |nodes| && GradOk(g, |nodes|)
    requires GradValue(nodes, e, acc, g) == At(nodes, e, acc, grads, i) + d
    ensures GradsOk(nodes, grads[i := Some(g)])
    ensures Weighted(nodes, e, acc, grads[i := Some(g)], p, k)
              == Weighted(nodes, e, acc, grads, p, k) + if i < k then Weight(d, Tangent(nodes, e, p, i)) else 0.0
  {
    hide Tangent;
    hide Weight;
    if k > 0 {
      WeightedUpdate(nodes, e, acc, grads, p, k - 1, i, g, d);
      var grads' := grads[i := Some(g)];
      if i == k - 1 { Distribute(At(nodes, e, acc, grads, i), d, Tangent(nodes, e, p, i)); }
    }
  }

  lemma Distribute(x: real, d: real, t: real)
    ensures Weight(x + d, t) == Weight(x, t) + Weight(d, t)
  {
  }

  /** What an update of operand o by d times its tangent contributes. */
  lemma Contributes(nodes: seq<ScalarNode>, e: Env, acc: nat -> real, grads: Grads, p: nat, k: nat, o: Operand, t: Grad,
                    sign: bool)
    requires WellFormed(nodes) && GradsOk(nodes, grads) && k < |nodes| && p < |nodes| && nodes[p].param && Before(o, k)
             && GradOk(t, |nodes|)
    ensures var grads' := if sign then AddOrSet(NeededAll(nodes), grads, o, t)
            else SubOrSet(NeededAll(nodes), grads, o, t);
            var d := if sign then GradValue(nodes, e, acc, t) else -GradValue(nodes, e, acc, t);
            && GradsOk(nodes, grads') && (forall i :: k <= i < |grads| ==> grads'[i] == grads[i])
            && Weighted(nodes, e, acc, grads', p, k) == Weighted(nodes, e, acc, grads, p, k) + Weight(d,
                OpTangent(nodes, e, p, o, k))
  {
    hide Tangent;
    hide Needed;
    hide Weighted;
    hide Weight;
    var needed := NeededAll(nodes);
    var d := if sign then GradValue(nodes, e, acc, t) else -GradValue(nodes, e, acc, t);
    if o.Node? {
      if needed[o.i] {
        var g := if sign then (if grads[o.i].Some? then Sum(grads[o.i].value, t) else t)
                 else if grads[o.i].Some? then Difference(grads[o.i].value, t) else Opposite(t);
        WeightedUpdate(nodes, e, acc, grads, p, k, o.i, g, d);
      } else {
        UnneededIsConstant(nodes, e, p, o.i);
        WeightOfZero(d);
      }
    } else {
      WeightOfZero(d);
    }
  }

  lemma WeightOfZero(d: real)
    ensures Weight(d, 0.0) == 0.0
  {
  }

  lemma QuotientMoves(g: real, t: real, y: real)
    ensures Quotient(g, y) * t == g * Quotient(t, y)
  {
    if y != 0.0 {
      var q, r := g / y, t / y;
      assert q * y == g && r * y == t;
      calc { q * t; q * (r * y); (q * y) * r; g * r; }
    }
  }

  lemma DivContribution(g: real, v: real, y: real, ta: real, tb: real, d: real, t: real)
    requires d == g * Quotient(v, y) && t == Quotient(ta, y) - v * Quotient(tb, y)
    ensures Weight(Quotient(g, y), ta) + Weight(-d, tb) == Weight(g, t)
  {
    QuotientMoves(g, ta, y);
    QuotientMoves(v, tb, y);
    var qa, qb, qv := Quotient(ta, y), Quotient(tb, y), Quotient(v, y);
    assert qv * tb == v * qb;
    calc {
      g * qa + (-(g * qv)) * tb;
      g * qa - g * (qv * tb);
      g * qa - g * (v * qb);
      g * (qa - v * qb);
    }
  }

  lemma MulContribution(g: real, x: real, y: real, ta: real, tb: real, d: real, f: real, t: real)
    requires d == g * y && f == x * g && t == ta * y + x * tb
    ensures Weight(d, ta) + Weight(f, tb) == Weight(g, t)
  {
    calc {
      g * y * ta + x * g * tb;
      g * (y * ta) + g * (x * tb);
      g * (y * ta + x * tb);
      g * (ta * y + x * tb);
    }
  }

  lemma SqrContribution(g: real, x: real, t: real)
    ensures Weight(2.0 * (x * g), t) == Weight(g, 2.0 * x * t)
  {
    calc {
      2.0 * (x * g) * t;
      g * (2.0 * x) * t;
      g * (2.0 * x * t);
    }
  }

  lemma ScaleContribution(g: real, s: real, t: real)
    ensures Weight(s * g, t) == Weight(g, s * t)
  {
  }

  lemma AddContribution(g: real, ta: real, tb: real)
    ensures Weight(g, ta) + Weight(g, tb) == Weight(g, ta + tb) && Weight(g, ta) + Weight(-g, tb) == Weight(g, ta - tb)
            && Weight(-g, ta) == Weight(g, -ta)
  {
  }

  /** What a pass over node k must do for the sum. */
  ghost predicate Keeps(nodes: seq<ScalarNode>, e: Env, acc: nat -> real, grads: Grads, r: Grads, p: nat, k: nat)
    requires WellFormed(nodes) && GradsOk(nodes, grads) && k < |nodes|
  {
    && GradsOk(nodes, r) && (forall i :: k <= i < |grads| ==> r[i] == grads[i])
    && Weighted(nodes, e, acc, r, p, k) == Weighted(nodes, e, acc, grads, p, k) + Weight(At(nodes, e, acc, grads, k),
        Tangent(nodes, e, p, k))
  }

  /** One source gets d times its tangent. */
  lemma OneSource(nodes: seq<ScalarNode>, e: Env, acc: nat -> real, grads: Grads, p: nat, k: nat, t: Grad, sign: bool)
    requires WellFormed(nodes) && GradsOk(nodes, grads) && k < |nodes| && p < |nodes| && nodes[p].param
             && GradOk(t, |nodes|)
    requires |Sources(nodes[k].op)| == 1
    requires Weight(if sign then GradValue(nodes, e, acc, t)
                                 else -GradValue(nodes, e, acc, t), OpTangent(nodes, e, p, Source(nodes, k, 0), k))
               == Weight(At(nodes, e, acc, grads, k), Tangent(nodes, e, p, k))
    ensures var a, needed := Source(nodes, k, 0), NeededAll(nodes);
            Keeps(nodes, e, acc, grads, if sign then AddOrSet(needed, grads, a, t)
                                                     else SubOrSet(needed, grads, a, t), p, k)
  {
    hide Tangent;
    hide Weighted;
    hide Weight;
    Contributes(nodes, e, acc, grads, p, k, Source(nodes, k, 0), t, sign);
  }

  /** Source j of node k. */
  function Source(nodes: seq<ScalarNode>, k: nat, j: nat): (o: Operand)
    requires WellFormed(nodes) && k < |nodes| && j < |Sources(nodes[k].op)|
    ensures Before(o, k)
  {
    Sources(nodes[k].op)[j]
  }

  /** Two sources, one after the other; they may be the same. */
  lemma TwoSources(nodes: seq<ScalarNode>, e: Env, acc: nat -> real, grads: Grads, p: nat, k: nat, t: Grad, u: Grad,
                   sign: bool)
    requires WellFormed(nodes) && GradsOk(nodes, grads) && k < |nodes| && p < |nodes| && nodes[p].param
             && GradOk(t, |nodes|) && GradOk(u, |nodes|)
    requires |Sources(nodes[k].op)| == 2
    requires Weight(GradValue(nodes, e, acc, t), OpTangent(nodes, e, p, Source(nodes, k, 0), k))
               + Weight(if sign then GradValue(nodes, e, acc, u)
                                     else -GradValue(nodes, e, acc, u), OpTangent(nodes, e, p, Source(nodes, k, 1), k))
               == Weight(At(nodes, e, acc, grads, k), Tangent(nodes, e, p, k))
    ensures var a, b, needed := Source(nodes, k, 0), Source(nodes, k, 1), NeededAll(nodes);
            var mid := AddOrSet(needed, grads, a, t);
            Keeps(nodes, e, acc, grads, if sign then AddOrSet(needed, mid, b, u) else SubOrSet(needed, mid, b, u), p, k)
  {
    hide Tangent;
    hide Weighted;
    hide Weight;
    hide Source;
    hide AddOrSet;
    hide SubOrSet;
    hide GradOk;
    hide OpTangent;
    hide NeededAll;
    hide GradValue;
    Contributes(nodes, e, acc, grads, p, k, Source(nodes, k, 0), t, true);
    Contributes(nodes, e, acc, AddOrSet(NeededAll(nodes), grads, Source(nodes, k, 0), t), p, k, Source(nodes, k, 1), u,
      sign);
  }

  lemma DupStep(nodes: seq<ScalarNode>, e: Env, acc: nat -> real, grads: Grads, p: nat, k: nat)
    requires WellFormed(nodes) && GradsOk(nodes, grads) && k < |nodes| && p < |nodes| && nodes[p].param
    requires grads[k].Some? && nodes[k].op.Dup?
    ensures Keeps(nodes, e, acc, grads, Backward(nodes, NeededAll(nodes), grads, k), p, k)
  {
    hide Weighted;
    hide Needed;
    hide Keeps;
    hide Weight;
    var grad, a := grads[k].value, Source(nodes, k, 0);
    OpLevel(nodes, e, p, a, k);
    OneSource(nodes, e, acc, grads, p, k, grad, true);
  }

  lemma NegStep(nodes: seq<ScalarNode>, e: Env, acc: nat -> real, grads: Grads, p: nat, k: nat)
    requires WellFormed(nodes) && GradsOk(nodes, grads) && k < |nodes| && p < |nodes| && nodes[p].param
    requires grads[k].Some? && nodes[k].op.Neg?
    ensures Keeps(nodes, e, acc, grads, Backward(nodes, NeededAll(nodes), grads, k), p, k)
  {
    hide Weighted;
    hide Needed;
    hide Keeps;
    hide Weight;
    var grad, a := grads[k].value, Source(nodes, k, 0);
    OpLevel(nodes, e, p, a, k);
    AddContribution(GradValue(nodes, e, acc, grad), OpTangent(nodes, e, p, a, k), 0.0);
    OneSource(nodes, e, acc, grads, p, k, grad, false);
  }

  lemma ScaleStep(nodes: seq<ScalarNode>, e: Env, acc: nat -> real, grads: Grads, p: nat, k: nat)
    requires WellFormed(nodes) && GradsOk(nodes, grads) && k < |nodes| && p < |nodes| && nodes[p].param
    requires grads[k].Some? && nodes[k].op.Scale?
    ensures Keeps(nodes, e, acc, grads, Backward(nodes, NeededAll(nodes), grads, k), p, k)
  {
    hide Weighted;
    hide Needed;
    hide Keeps;
    hide Weight;
    var grad, a := grads[k].value, Source(nodes, k, 0);
    OpLevel(nodes, e, p, a, k);
    var g, t, s := GradValue(nodes, e, acc, grad), OpTangent(nodes, e, p, a, k), nodes[k].op.s;
    assert GradValue(nodes, e, acc, Times(grad, s)) == s * g && Tangent(nodes, e, p, k) == s * t;
    ScaleContribution(g, s, t);
    OneSource(nodes, e, acc, grads, p, k, Times(grad, nodes[k].op.s), true);
  }

  lemma SqrStep(nodes: seq<ScalarNode>, e: Env, acc: nat -> real, grads: Grads, p: nat, k: nat)
    requires WellFormed(nodes) && GradsOk(nodes, grads) && k < |nodes| && p < |nodes| && nodes[p].param
    requires grads[k].Some? && nodes[k].op.Sqr?
    ensures Keeps(nodes, e, acc, grads, Backward(nodes, NeededAll(nodes), grads, k), p, k)
  {
    hide Weighted;
    hide Needed;
    hide Keeps;
    hide Weight;
    var grad, a := grads[k].value, Source(nodes, k, 0);
    OpLevel(nodes, e, p, a, k);
    var g, t, x := GradValue(nodes, e, acc, grad), OpTangent(nodes, e, p, a, k), OpValue(nodes, e, a, k);
    var inner := Product(Val(a), grad);
    assert GradOk(inner, |nodes|) && GradValue(nodes, e, acc, inner) == x * g;
    assert GradValue(nodes, e, acc, Times(inner, 2.0)) == 2.0 * (x * g) && Tangent(nodes, e, p, k) == 2.0 * x * t;
    SqrContribution(g, x, t);
    OneSource(nodes, e, acc, grads, p, k, Times(inner, 2.0), true);
  }

  lemma AddStep(nodes: seq<ScalarNode>, e: Env, acc: nat -> real, grads: Grads, p: nat, k: nat)
    requires WellFormed(nodes) && GradsOk(nodes, grads) && k < |nodes| && p < |nodes| && nodes[p].param
    requires grads[k].Some? && nodes[k].op.Add?
    ensures Keeps(nodes, e, acc, grads, Backward(nodes, NeededAll(nodes), grads, k), p, k)
  {
    hide Weighted;
    hide Needed;
    hide Keeps;
    hide Weight;
    var grad := grads[k].value;
    var g, ta, tb := GradValue(nodes, e, acc, grad), OpTangent(nodes, e, p, Source(nodes, k, 0), k),
      OpTangent(nodes, e, p, Source(nodes, k, 1), k);
    assert Tangent(nodes, e, p, k) == ta + tb;
    hide Tangent;
    hide OpTangent;
    AddContribution(g, ta, tb);
    TwoSources(nodes, e, acc, grads, p, k, grad, grad, true);
  }

  lemma SubStep(nodes: seq<ScalarNode>, e: Env, acc: nat -> real, grads: Grads, p: nat, k: nat)
    requires WellFormed(nodes) && GradsOk(nodes, grads) && k < |nodes| && p < |nodes| && nodes[p].param
    requires grads[k].Some? && nodes[k].op.Sub?
    ensures Keeps(nodes, e, acc, grads, Backward(nodes, NeededAll(nodes), grads, k), p, k)
  {
    hide Weighted;
    hide Needed;
    hide Keeps;
    hide Weight;
    var grad := grads[k].value;
    var g, ta, tb := GradValue(nodes, e, acc, grad), OpTangent(nodes, e, p, Source(nodes, k, 0), k),
      OpTangent(nodes, e, p, Source(nodes, k, 1), k);
    assert Tangent(nodes, e, p, k) == ta - tb;
    hide Tangent;
    hide OpTangent;
    AddContribution(g, ta, tb);
    TwoSources(nodes, e, acc, grads, p, k, grad, grad, false);
  }

  lemma MulStep(nodes: seq<ScalarNode>, e: Env, acc: nat -> real, grads: Grads, p: nat, k: nat)
    requires WellFormed(nodes) && GradsOk(nodes, grads) && k < |nodes| && p < |nodes| && nodes[p].param
    requires grads[k].Some? && nodes[k].op.Mul?
    ensures Keeps(nodes, e, acc, grads, Backward(nodes, NeededAll(nodes), grads, k), p, k)
  {
    hide Weighted;
    hide Needed;
    hide Keeps;
    hide Weight;
    var grad, a, b := grads[k].value, Source(nodes, k, 0), Source(nodes, k, 1);
    OpLevel(nodes, e, p, a, k);
    OpLevel(nodes, e, p, b, k);
    var g, ta, tb := GradValue(nodes, e, acc, grad), OpTangent(nodes, e, p, a, k), OpTangent(nodes, e, p, b, k);
    var x, y := OpValue(nodes, e, a, k), OpValue(nodes, e, b, k);
    assert GradValue(nodes, e, acc, Val(a)) == x && GradValue(nodes, e, acc, Val(b)) == y;
    var d, f, t := GradValue(nodes, e, acc, Product(grad, Val(b))), GradValue(nodes, e, acc, Product(Val(a), grad)),
      Tangent(nodes, e, p, k);
    assert d == g * y && f == x * g && t == ta * y + x * tb;
    hide GradValue;
    hide Tangent;
    hide OpTangent;
    hide OpValue;
    MulContribution(g, x, y, ta, tb, d, f, t);
    TwoSources(nodes, e, acc, grads, p, k, Product(grad, Val(b)), Product(Val(a), grad), true);
  }

  lemma DivStep(nodes: seq<ScalarNode>, e: Env, acc: nat -> real, grads: Grads, p: nat, k: nat)
    requires WellFormed(nodes) && GradsOk(nodes, grads) && k < |nodes| && p < |nodes| && nodes[p].param
    requires grads[k].Some? && nodes[k].op.Div?
    ensures Keeps(nodes, e, acc, grads, Backward(nodes, NeededAll(nodes), grads, k), p, k)
  {
    hide Weighted;
    hide Needed;
    hide Keeps;
    hide Weight;
    hide Quotient;
    var grad, a, b := grads[k].value, Source(nodes, k, 0), Source(nodes, k, 1);
    var g, ta, tb := GradValue(nodes, e, acc, grad), OpTangent(nodes, e, p, a, k), OpTangent(nodes, e, p, b, k);
    var x, y := OpValue(nodes, e, a, k), OpValue(nodes, e, b, k);
    OpLevel(nodes, e, p, a, k);
    OpLevel(nodes, e, p, b, k);
    var inner := Ratio(Val(Node(k)), Val(b));
    assert Value(nodes, e, k) == Quotient(x, y) && OpValue(nodes, e, Node(k), |nodes|) == Value(nodes, e, k);
    assert GradValue(nodes, e, acc, Val(Node(k))) == Quotient(x, y) && GradValue(nodes, e, acc, Val(b)) == y;
    assert GradOk(inner, |nodes|) && GradValue(nodes, e, acc, inner) == Quotient(Quotient(x, y), y);
    assert GradValue(nodes, e, acc, Ratio(grad, Val(b))) == Quotient(g, y)
           && GradValue(nodes, e, acc, Product(grad, inner)) == g * Quotient(Quotient(x, y), y);
    assert Tangent(nodes, e, p, k) == Quotient(ta, y) - Quotient(x, y) * Quotient(tb, y);
    DivContribution(g, Quotient(x, y), y, ta, tb, GradValue(nodes, e, acc, Product(grad, inner)),
      Tangent(nodes, e, p, k));
    TwoSources(nodes, e, acc, grads, p, k, Ratio(grad, Val(b)), Product(grad, inner), false);
  }

  lemma StepKeeps(nodes: seq<ScalarNode>, e: Env, acc: nat -> real, grads: Grads, p: nat, k: nat)
    requires WellFormed(nodes) && GradsOk(nodes, grads) && k < |nodes| && p < |nodes| && nodes[p].param && k != p
    ensures Keeps(nodes, e, acc, grads, Backward(nodes, NeededAll(nodes), grads, k), p, k)
  {
    hide Weighted;
    hide Needed;
    if grads[k].Some? {
      hide Backward;
      hide Keeps;
      match nodes[k].op
      case Input => InputStep(nodes, e, acc, grads, p, k);
      case Dup(_) => DupStep(nodes, e, acc, grads, p, k);
      case Add(_, _) => AddStep(nodes, e, acc, grads, p, k);
      case Sub(_, _) => SubStep(nodes, e, acc, grads, p, k);
      case Mul(_, _) => MulStep(nodes, e, acc, grads, p, k);
      case Div(_, _) => DivStep(nodes, e, acc, grads, p, k);
      case Sqr(_) => SqrStep(nodes, e, acc, grads, p, k);
      case Scale(_, _, _) => ScaleStep(nodes, e, acc, grads, p, k);
      case Neg(_) => NegStep(nodes, e, acc, grads, p, k);
    }
  }

  lemma InputStep(nodes: seq<ScalarNode>, e: Env, acc: nat -> real, grads: Grads, p: nat, k: nat)
    requires WellFormed(nodes) && GradsOk(nodes, grads) && k < |nodes| && k != p && nodes[k].op.Input?
    ensures Keeps(nodes, e, acc, grads, Backward(nodes, NeededAll(nodes), grads, k), p, k)
  {
    hide Weighted;
  }

  // ---------------------------------------------------------------- the whole pass

  lemma ParamIsUntouched(nodes: seq<ScalarNode>, grads: Grads, p: nat)
    requires WellFormed(nodes) && |grads| == |nodes| && p < |nodes| && nodes[p].param
    ensures Backward(nodes, NeededAll(nodes), grads, p) == grads
  {
  }

  lemma WeightOfParam(nodes: seq<ScalarNode>, e: Env, acc: nat -> real, grads: Grads, p: nat)
    requires WellFormed(nodes) && GradsOk(nodes, grads) && p < |nodes| && nodes[p].param
    ensures Weight(At(nodes, e, acc, grads, p), Tangent(nodes, e, p, p)) == At(nodes, e, acc, grads, p)
  {
    assert Tangent(nodes, e, p, p) == 1.0;
  }

  /** What the gradient of p will be: what is still spread over the nodes below k, and what p has received for good. */
  function Outlook(nodes: seq<ScalarNode>, e: Env, acc: nat -> real, grads: Grads, p: nat, k: nat): real
    requires WellFormed(nodes) && GradsOk(nodes, grads) && k <= |nodes| && p < |nodes|
  {
    Weighted(nodes, e, acc, grads, p, k) + if p >= k then At(nodes, e, acc, grads, p) else 0.0
  }

  lemma OutlookStays(nodes: seq<ScalarNode>, e: Env, acc: nat -> real, grads: Grads, p: nat, k: nat)
    requires WellFormed(nodes) && GradsOk(nodes, grads) && k < |nodes| && p < |nodes| && nodes[p].param
    ensures var next := Backward(nodes, NeededAll(nodes), grads, k);
            GradsOk(nodes, next) && Outlook(nodes, e, acc, next, p, k) == Outlook(nodes, e, acc, grads, p, k + 1)
  {
    hide Backward;
    hide Tangent;
    hide Weight;
    hide GradValue;
    hide NeededAll;
    if k == p {
      ParamIsUntouched(nodes, grads, p);
      WeightOfParam(nodes, e, acc, grads, p);
    } else {
      StepKeeps(nodes, e, acc, grads, p, k);
    }
  }

  /** The outlook is conserved until nothing but the gradient of the parameter is left of it. */
  lemma {:induction false} OutlookIsConserved(nodes: seq<ScalarNode>, e: Env, acc: nat -> real, grads: Grads, p: nat,
                                              k: nat)
    requires WellFormed(nodes) && GradsOk(nodes, grads) && k <= |nodes| && p < |nodes| && nodes[p].param
    ensures var r := BackwardFrom(nodes, NeededAll(nodes), grads, k);
            GradsOk(nodes, r) && At(nodes, e, acc, r, p) == Outlook(nodes, e, acc, grads, p, k)
    decreases k
  {
    hide Backward;
    if k > 0 {
      hide Outlook;
      OutlookStays(nodes, e, acc, grads, p, k - 1);
      OutlookIsConserved(nodes, e, acc, Backward(nodes, NeededAll(nodes), grads, k - 1), p, k - 1);
    }
  }

  /** What the accumulators weigh: their initial values times the tangents. */
  function Accumulated(nodes: seq<ScalarNode>, e: Env, acc: nat -> real, provided: seq<bool>, p: nat, k: nat): real
    requires WellFormed(nodes) && |nodes| == |provided| && k <= |nodes|
  {
    if k == 0 then 0.0
    else
      var here := if HasAcc(nodes, provided, NeededAll(nodes), k - 1) then
        Weight(acc(k - 1), Tangent(nodes, e, p, k - 1)) else 0.0;
      Accumulated(nodes, e, acc, provided, p, k - 1) + here
  }

  lemma WeightOfZeroGrad()
    ensures forall t :: Weight(0.0, t) == 0.0
  {
  }

  lemma {:induction false} InitialSum(nodes: seq<ScalarNode>, e: Env, acc: nat -> real, provided: seq<bool>, p: nat,
                                      k: nat)
    requires WellFormed(nodes) && |nodes| == |provided| && k <= |nodes|
    ensures GradsOk(nodes, InitialGrads(nodes, provided, NeededAll(nodes)))
    ensures Weighted(nodes, e, acc, InitialGrads(nodes, provided, NeededAll(nodes)), p, k)
            == Accumulated(nodes, e, acc, provided, p, k)
  {
    hide Tangent;
    hide Needed;
    hide Weight;
    WeightOfZeroGrad();
    if k > 0 { InitialSum(nodes, e, acc, provided, p, k - 1); }
  }

  /** The backward pass gives every parameter the accumulators' initial values times the tangents, summed over the
      graph. */
  lemma GradientIsAccumulatedTangent(nodes: seq<ScalarNode>, e: Env, acc: nat -> real, provided: seq<bool>, p: nat)
    requires WellFormed(nodes) && |nodes| == |provided| && p < |nodes| && nodes[p].param
    ensures var r := BuildBackward(nodes, provided);
            GradsOk(nodes, r) && At(nodes, e, acc, r, p) == Accumulated(nodes, e, acc, provided, p, |nodes|)
  {
    InitialSum(nodes, e, acc, provided, p, |nodes|);
    OutlookIsConserved(nodes, e, acc, InitialGrads(nodes, provided, NeededAll(nodes)), p, |nodes|);
  }
}
