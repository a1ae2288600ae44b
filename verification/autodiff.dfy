/** Reverse-mode differentiation on scalar graphs (ggml_build_backward_expand and ggml_compute_backward in
    CGGML/ggml.c). */
module Autodiff {
  import opened Wrappers

  /** A source: an earlier node of the graph, or a leaf (which never needs a gradient). */
  datatype Operand = Node(i: nat) | Leaf(l: nat)

  /** The operations whose gradient rules are modelled; Input is GGML_OP_NONE, Scale computes s * a + bias. */
  datatype ScalarOp =
    | Input
    | Dup(a: Operand) | Add(a: Operand, b: Operand) | Sub(a: Operand, b: Operand) | Mul(a: Operand, b: Operand)
      | Div(a: Operand, b: Operand)
    | Sqr(a: Operand) | Scale(a: Operand, s: real, bias: real) | Neg(a: Operand)

  datatype ScalarNode = ScalarNode(op: ScalarOp, param: bool, loss: bool)

  function Sources(op: ScalarOp): (r: seq<Operand>)
    ensures |r| <= 2
  {
    match op
    case Input => []
    case Dup(a) => [a]
    case Add(a, b) => [a, b]
    case Sub(a, b) => [a, b]
    case Mul(a, b) => [a, b]
    case Div(a, b) => [a, b]
    case Sqr(a) => [a]
    case Scale(a, _, _) => [a]
    case Neg(a) => [a]
  }

  predicate Before(o: Operand, k: int) {
    o.Node? ==> o.i < k
  }

  /** Sources come first; ggml_set_param accepts only tensors without an operation. */
  ghost predicate WellFormed(nodes: seq<ScalarNode>) {
    forall k :: 0 <= k < |nodes| ==>
      && (forall j :: 0 <= j < |Sources(nodes[k].op)| ==> Before(Sources(nodes[k].op)[j], k))
      && (nodes[k].param ==> nodes[k].op.Input?)
  }

  // ---------------------------------------------------------------- values

  /** Values of leafs and of nodes without an operation. */
  datatype Env = Env(leaf: nat -> real, input: nat -> real)

  /** Division is only meaningful where the divisor is not zero. */
  function Quotient(x: real, y: real): real {
    if y == 0.0 then 0.0 else x / y
  }

  function OpValue(nodes: seq<ScalarNode>, e: Env, o: Operand, k: nat): real
    requires WellFormed(nodes) && k <= |nodes| && Before(o, k)
    decreases k, 0
  {
    match o
    case Leaf(l) => e.leaf(l)
    case Node(i) => Value(nodes, e, i)
  }

  function Value(nodes: seq<ScalarNode>, e: Env, k: nat): real
    requires WellFormed(nodes) && k < |nodes|
    decreases k, 1
  {
    var src := Sources(nodes[k].op);
    assert forall j :: 0 <= j < |src| ==> Before(src[j], k);
    match nodes[k].op
    case Input => e.input(k)
    case Dup(a) => OpValue(nodes, e, src[0], k)
    case Add(a, b) => OpValue(nodes, e, src[0], k) + OpValue(nodes, e, src[1], k)
    case Sub(a, b) => OpValue(nodes, e, src[0], k) - OpValue(nodes, e, src[1], k)
    case Mul(a, b) => OpValue(nodes, e, src[0], k) * OpValue(nodes, e, src[1], k)
    case Div(a, b) => Quotient(OpValue(nodes, e, src[0], k), OpValue(nodes, e, src[1], k))
    case Sqr(a) => OpValue(nodes, e, src[0], k) * OpValue(nodes, e, src[0], k)
    case Scale(a, s, bias) => s * OpValue(nodes, e, src[0], k) + bias
    case Neg(a) => -OpValue(nodes, e, src[0], k)
  }

  // ---------------------------------------------------------------- gradient expressions

  /** A gradient tensor: an accumulator, a forward value, or an operation on gradients. */
  datatype Grad =
    | Acc(i: nat) | Val(o: Operand)
    | Sum(x: Grad, y: Grad) | Difference(x: Grad, y: Grad) | Product(x: Grad, y: Grad) | Ratio(x: Grad, y: Grad)
    | Times(x: Grad, s: real) | Opposite(x: Grad)

  /** Only mentions forward values of nodes below n. */
  predicate GradOk(g: Grad, n: nat) {
    match g
    case Acc(_) => true
    case Val(o) => Before(o, n)
    case Sum(x, y) => GradOk(x, n) && GradOk(y, n)
    case Difference(x, y) => GradOk(x, n) && GradOk(y, n)
    case Product(x, y) => GradOk(x, n) && GradOk(y, n)
    case Ratio(x, y) => GradOk(x, n) && GradOk(y, n)
    case Times(x, _) => GradOk(x, n)
    case Opposite(x) => GradOk(x, n)
  }

  function GradValue(nodes: seq<ScalarNode>, e: Env, acc: nat -> real, g: Grad): real
    requires WellFormed(nodes) && GradOk(g, |nodes|)
  {
    match g
    case Acc(i) => acc(i)
    case Val(o) => OpValue(nodes, e, o, |nodes|)
    case Sum(x, y) => GradValue(nodes, e, acc, x) + GradValue(nodes, e, acc, y)
    case Difference(x, y) => GradValue(nodes, e, acc, x) - GradValue(nodes, e, acc, y)
    case Product(x, y) => GradValue(nodes, e, acc, x) * GradValue(nodes, e, acc, y)
    case Ratio(x, y) => Quotient(GradValue(nodes, e, acc, x), GradValue(nodes, e, acc, y))
    case Times(x, s) => s * GradValue(nodes, e, acc, x)
    case Opposite(x) => -GradValue(nodes, e, acc, x)
  }

  // ---------------------------------------------------------------- the backward pass

  /** A gradient is needed by parameters, by losses, and by whatever is computed from a node that needs one. */
  function Needed(nodes: seq<ScalarNode>, k: nat): bool
    requires WellFormed(nodes) && k < |nodes|
    decreases k
  {
    var src := Sources(nodes[k].op);
    assert forall j :: 0 <= j < |src| ==> Before(src[j], k);
    nodes[k].param || nodes[k].loss || exists j :: 0 <= j < |src| && src[j].Node? && Needed(nodes, src[j].i)
  }

  type Grads = seq<Option<Grad>>

  function NeedsGrad(needed: seq<bool>, o: Operand): bool {
    o.Node? && o.i < |needed| && needed[o.i]
  }

  /** ggml_add_or_set */
  function AddOrSet(needed: seq<bool>, grads: Grads, o: Operand, t: Grad): (r: Grads)
    ensures |r| == |grads|
  {
    if NeedsGrad(needed, o) && o.i < |grads| then
      grads[o.i := Some(if grads[o.i].Some? then Sum(grads[o.i].value, t) else t)]
    else grads
  }

  /** ggml_sub_or_set */
  function SubOrSet(needed: seq<bool>, grads: Grads, o: Operand, t: Grad): (r: Grads)
    ensures |r| == |grads|
  {
    if NeedsGrad(needed, o) && o.i < |grads| then
      grads[o.i := Some(if grads[o.i].Some? then Difference(grads[o.i].value, t) else Opposite(t))]
    else grads
  }

  /** ggml_compute_backward for node k. */
  function Backward(nodes: seq<ScalarNode>, needed: seq<bool>, grads: Grads, k: nat): (r: Grads)
    requires k < |nodes| == |grads|
    ensures |r| == |grads|
  {
    if grads[k].None? then grads
    else
      var grad := grads[k].value;
      match nodes[k].op
      case Input => grads
      case Dup(a) => AddOrSet(needed, grads, a, grad)
      case Add(a, b) => AddOrSet(needed, AddOrSet(needed, grads, a, grad), b, grad)
      case Sub(a, b) => SubOrSet(needed, AddOrSet(needed, grads, a, grad), b, grad)
      case Mul(a, b) => AddOrSet(needed, AddOrSet(needed, grads, a, Product(grad, Val(b))), b, Product(Val(a), grad))
      case Div(a, b) => SubOrSet(needed, AddOrSet(needed, grads, a, Ratio(grad, Val(b))), b,
        Product(grad, Ratio(Val(Node(k)), Val(b))))
      case Sqr(a) => AddOrSet(needed, grads, a, Times(Product(Val(a), grad), 2.0))
      case Scale(a, s, _) => AddOrSet(needed, grads, a, Times(grad, s))
      case Neg(a) => SubOrSet(needed, grads, a, grad)
  }

  /** Nodes k-1, ..., 0. */
  function BackwardFrom(nodes: seq<ScalarNode>, needed: seq<bool>, grads: Grads, k: nat): (r: Grads)
    requires k <= |nodes| == |grads|
    ensures |r| == |grads|
    decreases k
  {
    if k == 0 then grads else BackwardFrom(nodes, needed, Backward(nodes, needed, grads, k - 1), k - 1)
  }

  /** Node k has an accumulator: it needs a gradient, and the caller provides one or the node is a loss. */
  predicate HasAcc(nodes: seq<ScalarNode>, provided: seq<bool>, needed: seq<bool>, k: int)
    requires 0 <= k < |nodes| == |provided| == |needed|
  {
    needed[k] && (provided[k] || nodes[k].loss)
  }

  function InitialGrads(nodes: seq<ScalarNode>, provided: seq<bool>, needed: seq<bool>): (r: Grads)
    requires |nodes| == |provided| == |needed|
    ensures |r| == |nodes|
  {
    seq(|nodes|, k requires 0 <= k < |nodes| => if HasAcc(nodes, provided, needed, k) then Some(Acc(k))
      else Option<Grad>.None)
  }

  function NeededAll(nodes: seq<ScalarNode>): (r: seq<bool>)
    requires WellFormed(nodes)
    ensures |r| == |nodes|
  {
    seq(|nodes|, k requires 0 <= k < |nodes| => Needed(nodes, k))
  }

  function BuildBackward(nodes: seq<ScalarNode>, provided: seq<bool>): (r: Grads)
    requires WellFormed(nodes) && |nodes| == |provided|
    ensures |r| == |nodes|
  {
    BackwardFrom(nodes, NeededAll(nodes), InitialGrads(nodes, provided, NeededAll(nodes)), |nodes|)
  }

  // ---------------------------------------------------------------- the code

  method FindParamsAndLosses(nodes: seq<ScalarNode>) returns (anyParams: bool, anyLoss: bool)
    ensures anyParams <==> exists k :: 0 <= k < |nodes| && nodes[k].param
    ensures anyLoss <==> exists k :: 0 <= k < |nodes| && nodes[k].loss
  {
    anyParams, anyLoss := false, false;
    var i := 0;
    while i < |nodes|
      invariant i <= |nodes|
      invariant anyParams <==> exists k :: 0 <= k < i && nodes[k].param
      invariant anyLoss <==> exists k :: 0 <= k < i && nodes[k].loss
    {
      anyParams := anyParams || nodes[i].param;
      anyLoss := anyLoss || nodes[i].loss;
      i := i + 1;
    }
  }

  /** The source loop of one node: does it compute from something that needs a gradient? */
  method NeedsFromSources(nodes: seq<ScalarNode>, needed: array<bool>, i: nat) returns (needs: bool)
    requires WellFormed(nodes) && needed.Length == |nodes| && i < |nodes|
    requires forall k :: 0 <= k < i ==> needed[k] == Needed(nodes, k)
    ensures needs == Needed(nodes, i)
  {
    var src := Sources(nodes[i].op);
    assert forall j :: 0 <= j < |src| ==> Before(src[j], i);
    needs := nodes[i].param || nodes[i].loss;
    var j := 0;
    while j < |src| && !needs
      invariant j <= |src|
      invariant needs <==> nodes[i].param || nodes[i].loss || exists k ::
                           0 <= k < j && src[k].Node? && Needed(nodes, src[k].i)
    {
      if src[j].Node? && needed[src[j].i] { needs := true; }
      j := j + 1;
    }
  }

  /** Which nodes need a gradient, and which start with an accumulator. */
  method Prepare(nodes: seq<ScalarNode>, provided: seq<bool>) returns (needed: array<bool>, grads: Grads)
    requires WellFormed(nodes) && |nodes| == |provided|
    ensures fresh(needed) && needed[..] == NeededAll(nodes) && grads == InitialGrads(nodes, provided, NeededAll(nodes))
  {
    hide Needed;
    needed := new bool[|nodes|](_ => false);
    grads := [];
    var i := 0;
    while i < |nodes|
      invariant i <= |nodes| && |grads| == i
      invariant forall k :: 0 <= k < i ==> needed[k] == Needed(nodes, k)
      invariant forall k :: 0 <= k < i ==>
                  grads[k] == if Needed(nodes, k) && (provided[k] || nodes[k].loss) then Some(Acc(k))
                    else Option<Grad>.None
    {
      var needs := NeedsFromSources(nodes, needed, i);
      grads := grads + [if needs && (provided[i] || nodes[i].loss) then Some(Acc(i)) else Option<Grad>.None];
      needed[i] := needs;
      i := i + 1;
    }
    assert needed[..] == NeededAll(nodes);
    assert grads == InitialGrads(nodes, provided, NeededAll(nodes));
  }

  /** ggml_build_backward_expand; false is a failed assertion that there is a parameter and a loss. */
  method BackwardExpand(nodes: seq<ScalarNode>, provided: seq<bool>) returns (ok: bool, grads: Grads)
    requires WellFormed(nodes) && |nodes| == |provided|
    ensures ok <==> (exists i :: 0 <= i < |nodes| && nodes[i].param) && (exists i :: 0 <= i < |nodes| && nodes[i].loss)
    ensures ok ==> grads == BuildBackward(nodes, provided)
  {
    hide Backward;
    hide NeededAll;
    hide InitialGrads;
    var anyParams, anyLoss := FindParamsAndLosses(nodes);
    ok, grads := anyParams && anyLoss, [];
    if !ok { return; }
    var needed;
    needed, grads := Prepare(nodes, provided);
    var i := |nodes|;
    while i > 0
      invariant 0 <= i <= |nodes| == |grads|
      invariant BackwardFrom(nodes, NeededAll(nodes), grads, i) == BuildBackward(nodes, provided)
    {
      i := i - 1;
      grads := Backward(nodes, needed[..], grads, i);
    }
  }
}
