/** What the backend scheduler of CGGML/ggml-backend.cpp knows about tensors, buffers and backends. */
module SchedModel {
  import opened Wrappers
  import opened TensorGraph

  /** A backend buffer: its type, whether it holds weights, whether it is host memory. */
  datatype Buffer = Buffer(buft: nat, weights: bool, host: bool)

  /** Backends are numbered by priority; the last one is assumed to be the CPU. `supportsOp(b, t)`, `supportsBuft(b,
      buft)` and `offload(b, t)` are the answers of backend b; `buffer(t)` is the buffer of a tensor that is allocated
      already. */
  datatype Sched = Sched(bufts: seq<nat>, supportsOp: (nat, nat) -> bool, supportsBuft: (nat, nat) -> bool,
                         offload: (nat, nat) -> bool, opOffload: bool, buffer: nat -> Option<Buffer>)

  const UNASSIGNED := -1

  /** Every entry of an assignment is a backend or UNASSIGNED. */
  ghost predicate Assignment(sc: Sched, g: Graph, a: seq<int>) {
    && |sc.bufts| > 0 && |a| == |g.tensors|
    && forall t :: 0 <= t < |a| ==> UNASSIGNED <= a[t] < |sc.bufts|
  }

  predicate Real(g: Graph, i: int)
    requires g.IdsOk() && 0 <= i < |g.nodes|
  {
    !IsViewOp(g.tensors[g.nodes[i]].op)
  }

  /** Position of a tensor in the node list, for nodes that are not view operations. */
  ghost predicate RealNode(g: Graph, t: int)
    requires g.IdsOk()
  {
    exists i :: 0 <= i < |g.nodes| && g.nodes[i] == t && Real(g, i)
  }

  function Root(g: Graph, t: nat): (r: nat)
    requires g.IdsOk() && t < |g.tensors|
    ensures r < |g.tensors|
  {
    if g.tensors[t].viewSrc.Some? then g.tensors[t].viewSrc.value else t
  }

  /** ggml_backend_sched_buffer_supported: can backend b use t where it is? */
  predicate BufferSupported(sc: Sched, g: Graph, a: seq<int>, t: nat, b: nat)
    requires g.IdsOk() && t < |g.tensors| == |a|
  {
    match sc.buffer(Root(g, t))
    case Some(buf) => sc.supportsBuft(b, buf.buft)
    case None =>
      var owner := if a[t] == UNASSIGNED then a[Root(g, t)] else a[t];
      0 <= owner < |sc.bufts| && sc.supportsBuft(b, sc.bufts[owner])
  }

  /** The lowest of the backends i, i+1, ... that supports the operation of `op` and can use the buffer type, or
      UNASSIGNED. */
  function LowestFor(sc: Sched, buft: nat, op: nat, i: nat): (b: int)
    requires i <= |sc.bufts|
    decreases |sc.bufts| - i
  {
    if i == |sc.bufts| then UNASSIGNED
    else if sc.supportsBuft(i, buft) && sc.supportsOp(i, op) then i
    else LowestFor(sc, buft, op, i + 1)
  }

  lemma {:induction false} LowestForMeaning(sc: Sched, buft: nat, op: nat, i: nat)
    requires i <= |sc.bufts|
    ensures var b := LowestFor(sc, buft, op, i);
            || (b == UNASSIGNED && forall k: nat :: i <= k < |sc.bufts| ==>
                !(sc.supportsBuft(k, buft) && sc.supportsOp(k, op)))
            || (i <= b < |sc.bufts| && sc.supportsBuft(b, buft) && sc.supportsOp(b, op)
                && forall k: nat :: i <= k < b ==> !(sc.supportsBuft(k, buft) && sc.supportsOp(k, op)))
    decreases |sc.bufts| - i
  {
    if i < |sc.bufts| && !(sc.supportsBuft(i, buft) && sc.supportsOp(i, op)) { LowestForMeaning(sc, buft, op, i + 1); }
  }

  /** ggml_backend_sched_backend_from_buffer */
  function FromBuffer(sc: Sched, g: Graph, t: nat, op: nat): int
    requires g.IdsOk() && t < |g.tensors|
  {
    match sc.buffer(Root(g, t))
    case None => UNASSIGNED
    case Some(buf) => LowestFor(sc, buf.buft, op, 0)
  }

  /** The lowest backend below `limit` that wants to take the operation over, or `limit`. */
  function Offloaded(sc: Sched, t: nat, limit: nat, b: nat): (r: nat)
    requires b <= limit
    ensures r <= limit && (r < limit ==> sc.supportsOp(r, t))
    decreases limit - b
  {
    if b == limit then limit
    else if sc.supportsOp(b, t) && sc.offload(b, t) then b
    else Offloaded(sc, t, limit, b + 1)
  }

  /** The source loop of backend_id_from_cur: the first weight decides, unless a faster backend takes the operation
      over. */
  function FromWeights(sc: Sched, g: Graph, t: nat, i: nat): int
    requires g.IdsOk() && t < |g.tensors| && i <= |g.tensors[t].src|
    decreases |g.tensors[t].src| - i
  {
    if i == |g.tensors[t].src| then UNASSIGNED
    else
      var src := g.tensors[t].src[i];
      if !g.tensors[t].op.ROPE? && sc.buffer(src).Some? && sc.buffer(src).value.weights then
        var b := FromBuffer(sc, g, src, t);
        if sc.opOffload && b == |sc.bufts| - 1 && b >= 0 && sc.buffer(src).value.host then Offloaded(sc, t, b, 0) else b
      else FromWeights(sc, g, t, i + 1)
  }

  /** ggml_backend_sched_backend_id_from_cur; None is the abort on a tensor stuck in a buffer that cannot run it. */
  function FromCur(sc: Sched, g: Graph, t: nat): Option<int>
    requires g.IdsOk() && t < |g.tensors|
  {
    var own := FromBuffer(sc, g, t, t);
    if own != UNASSIGNED then Some(own)
    else
      var viewed := if g.IsView(t) then FromBuffer(sc, g, g.tensors[t].viewSrc.value, t) else UNASSIGNED;
      if viewed != UNASSIGNED then Some(viewed)
      else if sc.buffer(t).Some? || (g.IsView(t) && sc.buffer(g.tensors[t].viewSrc.value).Some?) then None
      else if g.tensors[t].input then Some(|sc.bufts| - 1)
      else Some(FromWeights(sc, g, t, 0))
  }

  lemma {:induction false} FromWeightsIsSupported(sc: Sched, g: Graph, t: nat, i: nat)
    requires g.IdsOk() && t < |g.tensors| && i <= |g.tensors[t].src|
    ensures var b := FromWeights(sc, g, t, i);
            b == UNASSIGNED || (0 <= b < |sc.bufts| && sc.supportsOp(b, t))
    decreases |g.tensors[t].src| - i
  {
    if i < |g.tensors[t].src| {
      var src := g.tensors[t].src[i];
      if sc.buffer(Root(g, src)).Some? { LowestForMeaning(sc, sc.buffer(Root(g, src)).value.buft, t, 0); }
      FromWeightsIsSupported(sc, g, t, i + 1);
    }
  }

  /** The initial guess is a backend that can run the operation, except that unallocated graph inputs go to the last
      backend. */
  lemma FromCurIsSupported(sc: Sched, g: Graph, t: nat)
    requires g.IdsOk() && t < |g.tensors| && |sc.bufts| > 0 && FromCur(sc, g, t).Some?
    requires g.IsView(t) ==> !g.IsView(g.tensors[t].viewSrc.value)
    ensures var b := FromCur(sc, g, t).value;
            && UNASSIGNED <= b < |sc.bufts|
            && (b != UNASSIGNED && !(g.tensors[t].input && sc.buffer(Root(g, t)).None?) ==> sc.supportsOp(b, t))
            && (g.tensors[t].input && sc.buffer(t).None? && sc.buffer(Root(g, t)).None? ==> b == |sc.bufts| - 1)
  {
    if sc.buffer(Root(g, t)).Some? { LowestForMeaning(sc, sc.buffer(Root(g, t)).value.buft, t, 0); }
    if g.IsView(t) {
      var v := g.tensors[t].viewSrc.value;
      if sc.buffer(Root(g, v)).Some? { LowestForMeaning(sc, sc.buffer(Root(g, v)).value.buft, t, 0); }
    }
    FromWeightsIsSupported(sc, g, t, 0);
  }
}
