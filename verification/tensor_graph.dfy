/** Tensors and computation graphs as the planner and the scheduler see them. */
module TensorGraph {
  import opened Wrappers

  /** The operations that the modelled code distinguishes; the remaining ones are OTHER. */
  datatype Op =
    | NONE
    | VIEW | RESHAPE | PERMUTE | TRANSPOSE
    | FILL | SCALE | DIAG_MASK_ZERO | DIAG_MASK_INF | ADD | ADD_ID | ADD1 | SUB | MUL | DIV | SQR | SQRT | LOG | UNARY
    | ROPE | ROPE_BACK | SILU_BACK | RMS_NORM | RMS_NORM_BACK | SOFT_MAX | SOFT_MAX_BACK
    | OTHER(code: nat)

  /** ggml_op_can_inplace */
  predicate CanInplace(op: Op) {
    match op
    case NONE | VIEW | RESHAPE | PERMUTE | TRANSPOSE | OTHER(_) => false
    case _ => true
  }

  /** ggml_is_view_op */
  predicate IsViewOp(op: Op) {
    op.VIEW? || op.RESHAPE? || op.PERMUTE? || op.TRANSPOSE?
  }

  /** `src` lists the sources that are present, in slot order; `external` means data or buffer is already set. */
  datatype Tensor = Tensor(op: Op, input: bool, output: bool, src: seq<nat>, viewSrc: Option<nat>, external: bool)

  /** Occurrences of t among the entries j, j+1, ... of a row of sources. */
  function OccurrencesFrom(row: seq<nat>, t: nat, j: nat): nat
    requires j <= |row|
    decreases |row| - j
  {
    if j == |row| then 0 else (if row[j] == t then 1 else 0) + OccurrencesFrom(row, t, j + 1)
  }

  function Occurrences(row: seq<nat>, t: nat): nat {
    OccurrencesFrom(row, t, 0)
  }

  lemma {:induction false} OccurrencesZero(row: seq<nat>, t: nat, j: nat)
    requires j <= |row|
    ensures OccurrencesFrom(row, t, j) == 0 <==> forall i :: j <= i < |row| ==> row[i] != t
    decreases |row| - j
  {
    if j < |row| { OccurrencesZero(row, t, j + 1); }
  }

  /** Tensors are numbered; `nodes` and `leafs` are the two lists of a cgraph. */
  datatype Graph = Graph(tensors: seq<Tensor>, nodes: seq<nat>, leafs: seq<nat>) {
    predicate IdsOk() {
      && (forall k :: 0 <= k < |nodes| ==> nodes[k] < |tensors|)
      && (forall k :: 0 <= k < |leafs| ==> leafs[k] < |tensors|)
      && (forall t, j :: 0 <= t < |tensors| && 0 <= j < |tensors[t].src| ==> tensors[t].src[j] < |tensors|)
      && (forall t :: 0 <= t < |tensors| && tensors[t].viewSrc.Some? ==> tensors[t].viewSrc.value < |tensors|)
    }

    predicate IsView(t: nat)
      requires t < |tensors|
    {
      tensors[t].viewSrc.Some?
    }

    function Src(k: nat): seq<nat>
      requires IdsOk() && k < |nodes|
    {
      tensors[nodes[k]].src
    }

    ghost predicate NodeBefore(t: int, k: int) {
      exists i :: 0 <= i < k && i < |nodes| && nodes[i] == t
    }
  }

  /** What graph construction guarantees and what the planner relies on. */
  ghost predicate Ordered(g: Graph) {
    && g.IdsOk()
    && (forall i, j :: 0 <= i < j < |g.nodes| ==> g.nodes[i] != g.nodes[j])
    && (forall k :: 0 <= k < |g.nodes| ==> g.nodes[k] !in g.leafs)
    && (forall k, j :: 0 <= k < |g.nodes| && 0 <= j < |g.Src(k)| ==>
        Readable(g, g.Src(k)[j], k) && g.Src(k)[j] != g.nodes[k])
    && (forall t :: 0 <= t < |g.tensors| && g.IsView(t) ==> !g.IsView(g.tensors[t].viewSrc.value))
    && (forall k, i :: 0 <= k < |g.nodes| && 0 <= i < |g.nodes| && g.tensors[g.nodes[k]].viewSrc == Some(g.nodes[i]) ==>
        i < k)
    && (forall k :: 0 <= k < |g.leafs| ==> g.tensors[g.leafs[k]].op == NONE)
    && (forall t :: 0 <= t < |g.tensors| && g.tensors[t].input ==> !CanInplace(g.tensors[t].op))
  }

  /** Step k can read t: what t views is no node from k on, and t itself is a leaf or an earlier node, or a view that
      the planner's counting loop counts. */
  ghost predicate Readable(g: Graph, t: nat, k: nat)
    requires g.IdsOk() && t < |g.tensors|
  {
    if g.IsView(t) then CountedView(g, t) && forall i :: k <= i < |g.nodes| ==> g.nodes[i] != g.tensors[t].viewSrc.value
    else Earlier(g, t, k)
  }

  /** Available before step k: a leaf or an earlier node. */
  ghost predicate Earlier(g: Graph, t: nat, k: nat) {
    t in g.leafs || g.NodeBefore(t, k)
  }

  /** A view among the nodes that is not a mere dependency (those have op NONE). */
  ghost predicate CountedView(g: Graph, v: nat) {
    v < |g.tensors| && v in g.nodes && g.tensors[v].viewSrc.Some? && g.tensors[v].op != NONE
  }

  /** A graph as graph construction leaves it: every source is a leaf or an earlier node. */
  ghost predicate Topological(g: Graph) {
    && Ordered(g)
    && forall k, j :: 0 <= k < |g.nodes| && 0 <= j < |g.Src(k)| ==> Earlier(g, g.Src(k)[j], k)
  }
}
