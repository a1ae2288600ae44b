/** Which backend pass 1 chooses, told by what the backends can do, and what becomes of the choice. */
module SchedGuess {
  import opened Wrappers
  import opened TensorGraph
  import opened SchedModel
  import opened SchedAssign
  import opened SchedFinish

  /** Backend b can use buffers of this type and runs t. */
  ghost predicate CanHost(sc: Sched, buft: nat, t: nat, b: nat) {
    b < |sc.bufts| && sc.supportsBuft(b, buft) && sc.supportsOp(b, t)
  }

  /** b is the lowest backend that can, or UNASSIGNED when none can. */
  ghost predicate LowestHost(sc: Sched, buft: nat, t: nat, b: int) {
    if b == UNASSIGNED then forall k: nat :: !CanHost(sc, buft, t, k)
    else 0 <= b && CanHost(sc, buft, t, b) && forall k: nat :: k < b ==> !CanHost(sc, buft, t, k)
  }

  lemma FromBufferIsLowest(sc: Sched, g: Graph, t: nat, op: nat)
    requires g.IdsOk() && t < |g.tensors| && sc.buffer(Root(g, t)).Some?
    ensures LowestHost(sc, sc.buffer(Root(g, t)).value.buft, op, FromBuffer(sc, g, t, op))
  {
    LowestForMeaning(sc, sc.buffer(Root(g, t)).value.buft, op, 0);
  }

  /** A tensor whose data, or whose viewed data, is in a buffer already goes to the lowest backend that can use the
      buffer and run the operation; when none can, the call aborts. */
  lemma DataDecides(sc: Sched, g: Graph, t: nat)
    requires g.IdsOk() && t < |g.tensors| && sc.buffer(Root(g, t)).Some?
    requires g.IsView(t) ==> !g.IsView(Root(g, t))
    ensures var r, buft := FromCur(sc, g, t), sc.buffer(Root(g, t)).value.buft;
            if r.None? then forall k: nat :: !CanHost(sc, buft, t, k)
            else r.value != UNASSIGNED && LowestHost(sc, buft, t, r.value)
  {
    FromBufferIsLowest(sc, g, t, t);
    if g.IsView(t) { FromBufferIsLowest(sc, g, Root(g, t), t); }
  }

  /** The call aborts exactly on data in a buffer that no backend can use to run the operation. */
  lemma AbortsExactly(sc: Sched, g: Graph, t: nat)
    requires g.IdsOk() && t < |g.tensors| && (g.IsView(t) ==> !g.IsView(Root(g, t)))
    ensures FromCur(sc, g, t).None? <==>
            if sc.buffer(Root(g, t)).Some? then forall k: nat :: !CanHost(sc, sc.buffer(Root(g, t)).value.buft, t, k)
            else sc.buffer(t).Some?
  {
    if sc.buffer(Root(g, t)).Some? { DataDecides(sc, g, t); }
  }

  /** A graph input without data goes to the last backend. */
  lemma InputsGoLast(sc: Sched, g: Graph, t: nat)
    requires g.IdsOk() && t < |g.tensors| && NoData(sc, g, t) && g.tensors[t].input
    ensures FromCur(sc, g, t) == Some(|sc.bufts| - 1)
  {
  }

  ghost predicate NoData(sc: Sched, g: Graph, t: nat)
    requires g.IdsOk() && t < |g.tensors|
  {
    sc.buffer(t).None? && sc.buffer(Root(g, t)).None? && (g.IsView(t) ==> !g.IsView(Root(g, t)))
  }

  ghost predicate InWeights(sc: Sched, u: nat) {
    sc.buffer(u).Some? && sc.buffer(u).value.weights
  }

  /** Source j is the first in a weight buffer. */
  ghost predicate FirstWeight(sc: Sched, g: Graph, t: nat, j: int)
    requires g.IdsOk() && t < |g.tensors|
  {
    && 0 <= j < |g.tensors[t].src| && InWeights(sc, g.tensors[t].src[j])
    && forall i :: 0 <= i < j ==> !InWeights(sc, g.tensors[t].src[i])
  }

  ghost predicate NoWeight(sc: Sched, g: Graph, t: nat)
    requires g.IdsOk() && t < |g.tensors|
  {
    g.tensors[t].op.ROPE? || forall i :: 0 <= i < |g.tensors[t].src| ==> !InWeights(sc, g.tensors[t].src[i])
  }

  /** Without data, without a weight among the sources, or for ROPE, there is no guess. */
  lemma NoWeightNoGuess(sc: Sched, g: Graph, t: nat)
    requires g.IdsOk() && t < |g.tensors| && NoData(sc, g, t) && !g.tensors[t].input && NoWeight(sc, g, t)
    ensures FromCur(sc, g, t) == Some(UNASSIGNED)
  {
    NoneAhead(sc, g, t, 0);
  }

  lemma {:induction false} NoneAhead(sc: Sched, g: Graph, t: nat, i: nat)
    requires g.IdsOk() && t < |g.tensors| && i <= |g.tensors[t].src| && NoWeight(sc, g, t)
    ensures FromWeights(sc, g, t, i) == UNASSIGNED
    decreases |g.tensors[t].src| - i
  {
    if i < |g.tensors[t].src| { NoneAhead(sc, g, t, i + 1); }
  }

  /** Backend b, faster than the last, takes t over. */
  ghost predicate TakesOver(sc: Sched, t: nat, b: nat) {
    b < |sc.bufts| - 1 && sc.supportsOp(b, t) && sc.offload(b, t)
  }

  /** The backend chosen for a weight: the lowest that can use its buffer and run t, except that weights in host memory
      which the last backend would compute go to the lowest faster backend that takes the operation over, if there is
      one. */
  ghost predicate WeightsChoice(sc: Sched, buft: nat, host: bool, t: nat, r: int) {
    exists b :: LowestHost(sc, buft, t, b) &&
      if sc.opOffload && host && b == |sc.bufts| - 1 && b >= 0 && exists k: nat :: TakesOver(sc, t, k) then
        0 <= r && TakesOver(sc, t, r) && forall k: nat :: k < r ==> !TakesOver(sc, t, k)
      else r == b
  }

  lemma {:induction false} OffloadedIsLowest(sc: Sched, t: nat, limit: nat, b: nat)
    requires b <= limit == |sc.bufts| - 1
    ensures var r := Offloaded(sc, t, limit, b);
            && (r < limit ==> b <= r && TakesOver(sc, t, r))
            && forall k: nat :: b <= k < r ==> !TakesOver(sc, t, k)
    decreases limit - b
  {
    if b < limit && !(sc.supportsOp(b, t) && sc.offload(b, t)) { OffloadedIsLowest(sc, t, limit, b + 1); }
  }

  lemma WeightChosen(sc: Sched, g: Graph, t: nat, j: nat)
    requires g.IdsOk() && t < |g.tensors| && FirstWeight(sc, g, t, j) && !g.tensors[t].op.ROPE?
    requires sc.buffer(Root(g, g.tensors[t].src[j])).Some?
    ensures var w := g.tensors[t].src[j];
            WeightsChoice(sc, sc.buffer(Root(g, w)).value.buft, sc.buffer(w).value.host, t, FromWeights(sc, g, t, j))
  {
    var w := g.tensors[t].src[j];
    var b := FromBuffer(sc, g, w, t);
    FromBufferIsLowest(sc, g, w, t);
    if sc.opOffload && b == |sc.bufts| - 1 && b >= 0 && sc.buffer(w).value.host {
      OffloadedIsLowest(sc, t, b, 0);
      var r := Offloaded(sc, t, b, 0);
      if r == b { assert forall k: nat :: !TakesOver(sc, t, k); } else { assert TakesOver(sc, t, r); }
    }
  }

  lemma {:induction false} SkipsToFirst(sc: Sched, g: Graph, t: nat, j: nat, i: nat)
    requires g.IdsOk() && t < |g.tensors| && FirstWeight(sc, g, t, j) && i <= j
    ensures FromWeights(sc, g, t, i) == FromWeights(sc, g, t, j)
    decreases j - i
  {
    if i < j { SkipsToFirst(sc, g, t, j, i + 1); }
  }

  /** The first weight among the sources decides. */
  lemma WeightDecides(sc: Sched, g: Graph, t: nat, j: nat)
    requires g.IdsOk() && t < |g.tensors| && NoData(sc, g, t) && !g.tensors[t].input && !g.tensors[t].op.ROPE?
    requires FirstWeight(sc, g, t, j) && sc.buffer(Root(g, g.tensors[t].src[j])).Some?
    ensures var w := g.tensors[t].src[j];
            FromCur(sc, g, t).Some?
            && WeightsChoice(sc, sc.buffer(Root(g, w)).value.buft, sc.buffer(w).value.host, t, FromCur(sc, g, t).value)
  {
    SkipsToFirst(sc, g, t, j, 0);
    WeightChosen(sc, g, t, j);
  }

  /** A weight that views a tensor without a buffer leaves the node without a guess. */
  lemma UnknownWeightNoGuess(sc: Sched, g: Graph, t: nat, j: nat)
    requires g.IdsOk() && t < |g.tensors| && NoData(sc, g, t) && !g.tensors[t].input && !g.tensors[t].op.ROPE?
    requires |sc.bufts| > 0 && FirstWeight(sc, g, t, j) && sc.buffer(Root(g, g.tensors[t].src[j])).None?
    ensures FromCur(sc, g, t) == Some(UNASSIGNED)
  {
    SkipsToFirst(sc, g, t, j, 0);
  }

  /** What the four passes make of it: a node that reads a weight ends on the backend chosen for the weight, or on a
      faster one of the same buffer type that runs it. */
  lemma WeightDecidesFinally(sc: Sched, g: Graph, pins: seq<int>, first: seq<int>, final: seq<int>, t: nat, j: nat)
    requires Topological(g) && Assignment(sc, g, pins) && |first| == |pins| == |final|
    requires Guessed(sc, g, pins, first) && WellAssigned(sc, g, pins, first, final)
    requires t in g.nodes && t < |g.tensors| && pins[t] == UNASSIGNED && NoData(sc, g, t)
    requires !g.tensors[t].input && !g.tensors[t].op.ROPE?
    requires FirstWeight(sc, g, t, j) && sc.buffer(Root(g, g.tensors[t].src[j])).Some?
    ensures var w := g.tensors[t].src[j];
            var buft, host := sc.buffer(Root(g, w)).value.buft, sc.buffer(w).value.host;
            exists b :: WeightsChoice(sc, buft, host, t, b)
                        && (b != UNASSIGNED ==> 0 <= b < |sc.bufts| && MovesDown(sc, g, b, final[t], t))
  {
    hide Readable;
    hide WeightsChoice;
    WeightDecides(sc, g, t, j);
    assert InGraph(g, t);
    assert FromCur(sc, g, t) == Some(first[t]);
  }

  /** Data that is in a buffer already holds its node to the backends of one buffer type in the same way. */
  lemma DataDecidesFinally(sc: Sched, g: Graph, pins: seq<int>, first: seq<int>, final: seq<int>, t: nat)
    requires Topological(g) && Assignment(sc, g, pins) && |first| == |pins| == |final|
    requires Guessed(sc, g, pins, first) && WellAssigned(sc, g, pins, first, final)
    requires InGraph(g, t) && t < |g.tensors| && pins[t] == UNASSIGNED && sc.buffer(Root(g, t)).Some?
    ensures exists b: nat :: b < |sc.bufts| && LowestHost(sc, sc.buffer(Root(g, t)).value.buft, t, b)
                             && MovesDown(sc, g, b, final[t], t)
  {
    hide Readable;
    DataDecides(sc, g, t);
    assert FromCur(sc, g, t) == Some(first[t]);
  }
}
