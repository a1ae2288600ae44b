/** From the user's pins to the bytes: scheduler, graph copy and planner together. */
module PlanWhole {
  import opened Wrappers
  import opened TensorGraph
  import opened Planner
  import opened PlannerOwners
  import opened PlanRun
  import SchedModel
  import SchedAssign
  import SchedFinish
  import opened SchedSplit
  import opened SchedRun
  import opened SchedReady
  import opened SchedGraphCopy
  import opened PlanSplits
  import SchedWhole

  type Meaning = PlanRun.Meaning

  lemma NodesExist(g: Graph)
    requires Topological(g)
    ensures g.IdsOk() && forall i :: 0 <= i < |g.nodes| ==> g.nodes[i] < |g.tensors|
  {
  }

  /** Where nothing places the views and the graph inputs are leafs, the splits of a scheduled graph, run in the memory
      planned for the graph copy, compute what the original graph means: every original node right after its step, every
      output at the end. */
  lemma PinsToMemory(m: Meaning, sc: SchedModel.Sched, g: Graph, pins: seq<int>, first: seq<int>, final: seq<int>,
                     c: Cut,
                     nb: nat -> nat, h: Graph, cfg: Config, maxSizes: seq<nat>, nodeBufs: seq<nat>, leafBufs: seq<nat>,
                     hv: seq<HashNode>, st: Store, k: nat, t: nat)
    requires Topological(g) && PureNodes(g) && SchedModel.Assignment(sc, g, pins) && |first| == |pins| == |final|
    requires SchedAssign.Guessed(sc, g, pins, first) && SchedFinish.WellAssigned(sc, g, pins, first, final)
    requires SchedWhole.ViewsUnplaced(sc, g, pins) && CutOk(sc, g, final, c, |g.nodes|)
    requires forall i :: 0 <= i < |g.nodes| ==> !g.tensors[g.nodes[i]].input
    requires InputsKnown(g, final, c) && h == GraphCopy(g, final, c)
    requires h.IdsOk() && ReadsExist(h, SplitActions(g, c)) && SizedMeaning(m, g, c, nb)
    requires CfgOk(cfg) && |maxSizes| == |cfg.bufts| && Plan(h, cfg, maxSizes, nodeBufs, leafBufs).Some?
    requires hv == Plan(h, cfg, maxSizes, nodeBufs, leafBufs).value.hv && BuffersOk(cfg, hv) && |hv| == |h.tensors|
    requires forall x: nat :: InPools(h, x) ==> nb(x) <= cfg.size(cfg.bufts[hv[x].bufferId], x)
    requires Loaded(SplitMeaning(m, g, nb), h, cfg, hv, nb, st) && t < |g.tensors|
    ensures k < |h.nodes| && h.nodes[k] == t && SplitActions(g, c)(t).Compute? ==>
              Contents(h, cfg, hv, nb, Run(SplitMeaning(m, g, nb), h, SplitActions(g, c), cfg, hv, nb, st, k + 1), t)
                == InOrder(m, g, Initial(m, |g.tensors|), |g.nodes|)[t]
    ensures InPools(h, t) && h.tensors[t].output ==>
              Contents(h, cfg, hv, nb, Run(SplitMeaning(m, g, nb), h, SplitActions(g, c), cfg, hv, nb, st, |h.nodes|),
                t)
                == InOrder(m, g, Initial(m, |g.tensors|), |g.nodes|)[t]
  {
    hide *;
    NodesExist(g);
    SchedWhole.UnplacedViewsAreReady(sc, g, pins, first, final, c);
    ScheduledAndPlannedRunIsCorrect(m, sc, g, final, c, nb, h, cfg, maxSizes, nodeBufs, leafBufs, hv, st, k, t);
  }
}
