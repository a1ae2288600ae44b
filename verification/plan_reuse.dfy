/** Recording a plan and placing a later graph of the same shape with it (reserve_n_impl, needs_realloc,
    alloc_graph). */
module PlanReuse {
  import opened Wrappers
  import opened Alignment
  import opened TensorAlloc
  import opened TensorGraph
  import opened Planner
  import opened PlannerMemory
  import opened PlannerCounts
  import opened PlannerOwners
  import opened PlannerSafety
  import opened PlanSafety
  import opened PlanBounds

  /** struct tensor_alloc: buffer_id -1 is Unplaced. */
  datatype Slot = Unplaced | At(bufferId: nat, addr: Address, sizeMax: nat)

  datatype Tables = Tables(leafs: seq<Slot>, dsts: seq<Slot>, srcs: seq<seq<Slot>>)

  /** Where a tensor's data pointer was set to. */
  datatype Spot = Spot(bufferId: nat, addr: Address)

  function RecordOf(g: Graph, cfg: Config, hv: seq<HashNode>, t: nat): Slot
    requires g.IdsOk() && |hv| == |g.tensors| && t < |hv| && forall u :: 0 <= u < |hv| ==> hv[u].bufferId < |cfg.bufts|
  {
    if g.tensors[t].viewSrc.Some? || g.tensors[t].external then Unplaced
    else At(hv[t].bufferId, hv[t].addr, Request(cfg, hv[t].bufferId, t))
  }

  /** The tables hold, slot by slot, the record of the tensor found there. */
  ghost predicate Recorded(g: Graph, cfg: Config, hv: seq<HashNode>, tb: Tables)
    requires g.IdsOk() && |hv| == |g.tensors| && forall u :: 0 <= u < |hv| ==> hv[u].bufferId < |cfg.bufts|
  {
    && |tb.leafs| == |g.leafs| && |tb.dsts| == |tb.srcs| == |g.nodes|
    && (forall i :: 0 <= i < |g.leafs| ==> tb.leafs[i] == RecordOf(g, cfg, hv, g.leafs[i]))
    && (forall i :: 0 <= i < |g.nodes| ==> tb.dsts[i] == RecordOf(g, cfg, hv, g.nodes[i]))
    && (forall i :: 0 <= i < |g.nodes| ==> |tb.srcs[i]| == |g.Src(i)|)
    && (forall i, j :: 0 <= i < |g.nodes| && 0 <= j < |g.Src(i)| ==> tb.srcs[i][j] == RecordOf(g, cfg, hv, g.Src(i)[j]))
  }

  /** The loops of ggml_gallocr_reserve_n_impl that fill the tables. */
  method Record(g: Graph, cfg: Config, hv: seq<HashNode>) returns (tb: Tables)
    requires g.IdsOk() && |hv| == |g.tensors| && forall u :: 0 <= u < |hv| ==> hv[u].bufferId < |cfg.bufts|
    ensures Recorded(g, cfg, hv, tb)
  {
    var dsts: seq<Slot>, srcs: seq<seq<Slot>> := [], [];
    for i := 0 to |g.nodes|
      invariant |dsts| == |srcs| == i
      invariant forall k :: 0 <= k < i ==> dsts[k] == RecordOf(g, cfg, hv, g.nodes[k])
      invariant forall k :: 0 <= k < i ==> |srcs[k]| == |g.Src(k)|
      invariant forall k, j :: 0 <= k < i && 0 <= j < |g.Src(k)| ==> srcs[k][j] == RecordOf(g, cfg, hv, g.Src(k)[j])
    {
      var row := RecordRow(g, cfg, hv, i);
      dsts, srcs := dsts + [RecordOf(g, cfg, hv, g.nodes[i])], srcs + [row];
    }
    var leafs: seq<Slot> := [];
    for i := 0 to |g.leafs|
      invariant |leafs| == i && forall k :: 0 <= k < i ==> leafs[k] == RecordOf(g, cfg, hv, g.leafs[k])
    {
      leafs := leafs + [RecordOf(g, cfg, hv, g.leafs[i])];
    }
    tb := Tables(leafs, dsts, srcs);
  }

  method RecordRow(g: Graph, cfg: Config, hv: seq<HashNode>, i: nat) returns (row: seq<Slot>)
    requires g.IdsOk() && i < |g.nodes| && |hv| == |g.tensors| && forall u :: 0 <= u < |hv| ==>
             hv[u].bufferId < |cfg.bufts|
    ensures |row| == |g.Src(i)| && forall j :: 0 <= j < |row| ==> row[j] == RecordOf(g, cfg, hv, g.Src(i)[j])
  {
    row := [];
    for j := 0 to |g.Src(i)|
      invariant |row| == j && forall k :: 0 <= k < j ==> row[k] == RecordOf(g, cfg, hv, g.Src(i)[k])
    {
      row := row + [RecordOf(g, cfg, hv, g.Src(i)[j])];
    }
  }

  /** ggml_gallocr_node_needs_realloc, which answers whether the slot is still good. */
  predicate StillFits(g: Graph, cfg: Config, t: nat, slot: Slot)
    requires t < |g.tensors| && (slot.At? ==> slot.bufferId < |cfg.bufts|)
  {
    if g.tensors[t].external || g.tensors[t].viewSrc.Some? then true
    else if slot.Unplaced? then false
    else slot.sizeMax >= Request(cfg, slot.bufferId, t)
  }

  ghost predicate SlotsOk(cfg: Config, tb: Tables) {
    && (forall i :: 0 <= i < |tb.dsts| && tb.dsts[i].At? ==> tb.dsts[i].bufferId < |cfg.bufts|)
    && (forall i, j :: 0 <= i < |tb.srcs| && 0 <= j < |tb.srcs[i]| && tb.srcs[i][j].At? ==>
        tb.srcs[i][j].bufferId < |cfg.bufts|)
  }

  /** Every node and every source of a node fits its slot. */
  ghost predicate AllFit(g: Graph, cfg: Config, tb: Tables, n: nat)
    requires g.IdsOk() && SlotsOk(cfg, tb) && n <= |g.nodes| == |tb.dsts| == |tb.srcs|
    requires forall i :: 0 <= i < |g.nodes| ==> |tb.srcs[i]| == |g.Src(i)|
  {
    && (forall i :: 0 <= i < n ==> StillFits(g, cfg, g.nodes[i], tb.dsts[i]))
    && (forall i, j :: 0 <= i < n && 0 <= j < |g.Src(i)| ==> StillFits(g, cfg, g.Src(i)[j], tb.srcs[i][j]))
  }

  /** ggml_gallocr_needs_realloc for a graph with as many sources per node as the recorded one. */
  method NeedsRealloc(g: Graph, cfg: Config, tb: Tables) returns (needs: bool)
    requires g.IdsOk() && SlotsOk(cfg, tb) && |tb.dsts| == |tb.srcs|
    requires forall i :: 0 <= i < |g.nodes| && i < |tb.srcs| ==> |tb.srcs[i]| == |g.Src(i)|
    ensures !needs <==> |tb.dsts| == |g.nodes| && |tb.leafs| == |g.leafs| && AllFit(g, cfg, tb, |g.nodes|)
  {
    if |tb.dsts| != |g.nodes| { return true; }
    if |tb.leafs| != |g.leafs| { return true; }
    for i := 0 to |g.nodes|
      invariant AllFit(g, cfg, tb, i)
    {
      if !StillFits(g, cfg, g.nodes[i], tb.dsts[i]) { return true; }
      for j := 0 to |g.Src(i)|
        invariant forall k :: 0 <= k < j ==> StillFits(g, cfg, g.Src(i)[k], tb.srcs[i][k])
      {
        if !StillFits(g, cfg, g.Src(i)[j], tb.srcs[i][j]) { return true; }
      }
    }
    return false;
  }

  /** A tensor the placement has reached stands where its record says; nothing else has been touched. */
  ghost predicate PlacedRight(g: Graph, cfg: Config, hv: seq<HashNode>, spots: seq<Option<Spot>>, t: nat)
    requires g.IdsOk() && |hv| == |g.tensors| == |spots| && t < |hv|
    requires forall u :: 0 <= u < |hv| ==> hv[u].bufferId < |cfg.bufts|
  {
    spots[t] == if Storable(g, t) then Some(Spot(hv[t].bufferId, hv[t].addr)) else None
  }

  /** Placements agree with the plan wherever they have been made. */
  ghost predicate Agrees(g: Graph, hv: seq<HashNode>, spots: seq<Option<Spot>>)
    requires |hv| == |g.tensors| == |spots|
  {
    forall t :: 0 <= t < |spots| ==>
      (spots[t].Some? ==> Storable(g, t) && spots[t].value == Spot(hv[t].bufferId, hv[t].addr))
  }

  ghost predicate Fits(g: Graph, cfg: Config, hv: seq<HashNode>, spots: seq<Option<Spot>>) {
    g.IdsOk() && |hv| == |g.tensors| == |spots| && forall u :: 0 <= u < |hv| ==> hv[u].bufferId < |cfg.bufts|
  }

  ghost predicate Kept(g: Graph, cfg: Config, hv: seq<HashNode>, was: seq<Option<Spot>>, now: seq<Option<Spot>>)
    requires Fits(g, cfg, hv, was) && |now| == |was|
  {
    forall t :: 0 <= t < |hv| && PlacedRight(g, cfg, hv, was, t) ==> PlacedRight(g, cfg, hv, now, t)
  }

  /** The placing object: the data pointers the call sets. */
  class Placer {
    const spots: array<Option<Spot>>

    constructor (n: nat)
      ensures fresh(spots) && spots.Length == n && forall t :: 0 <= t < n ==> spots[t] == None
    {
      spots := new Option<Spot>[n](_ => None);
    }

    /** ggml_gallocr_init_tensor: views follow their root; data that is already set stays. */
    method InitTensor(g: Graph, t: nat, slot: Slot)
      requires t < |g.tensors| == spots.Length
      requires Storable(g, t) ==> slot.At?
      modifies spots
      ensures spots[..] == if Storable(g, t) && old(spots[t]).None? then
              old(spots[..])[t := Some(Spot(slot.bufferId, slot.addr))]
                           else old(spots[..])
    {
      if g.tensors[t].viewSrc.None? && !g.tensors[t].external && spots[t].None? {
        spots[t] := Some(Spot(slot.bufferId, slot.addr));
      }
    }

    /** One placement keeps every earlier one and puts t where its record says. */
    method PlaceOne(g: Graph, cfg: Config, ghost hv: seq<HashNode>, t: nat, slot: Slot)
      requires Fits(g, cfg, hv, spots[..]) && t < |hv| && slot == RecordOf(g, cfg, hv, t)
      requires Agrees(g, hv, spots[..])
      modifies spots
      ensures Agrees(g, hv, spots[..]) && Kept(g, cfg, hv, old(spots[..]), spots[..])
              && PlacedRight(g, cfg, hv, spots[..], t)
    {
      InitTensor(g, t, slot);
    }

    method PlaceLeafs(g: Graph, cfg: Config, ghost hv: seq<HashNode>, tb: Tables)
      requires Fits(g, cfg, hv, spots[..]) && Recorded(g, cfg, hv, tb) && Agrees(g, hv, spots[..])
      modifies spots
      ensures Agrees(g, hv, spots[..])
      ensures forall i :: 0 <= i < |g.leafs| ==> PlacedRight(g, cfg, hv, spots[..], g.leafs[i])
    {
      hide PlacedRight;
      for i := 0 to |g.leafs|
        invariant Agrees(g, hv, spots[..])
        invariant forall k :: 0 <= k < i ==> PlacedRight(g, cfg, hv, spots[..], g.leafs[k])
      {
        PlaceOne(g, cfg, hv, g.leafs[i], tb.leafs[i]);
      }
    }

    method PlaceSources(g: Graph, cfg: Config, ghost hv: seq<HashNode>, tb: Tables, i: nat)
      requires Fits(g, cfg, hv, spots[..]) && Recorded(g, cfg, hv, tb) && i < |g.nodes| && Agrees(g, hv, spots[..])
      modifies spots
      ensures Agrees(g, hv, spots[..]) && Kept(g, cfg, hv, old(spots[..]), spots[..])
      ensures forall j :: 0 <= j < |g.Src(i)| ==> PlacedRight(g, cfg, hv, spots[..], g.Src(i)[j])
    {
      hide PlacedRight;
      ghost var was := spots[..];
      for j := 0 to |g.Src(i)|
        invariant Agrees(g, hv, spots[..]) && Kept(g, cfg, hv, was, spots[..])
        invariant forall k :: 0 <= k < j ==> PlacedRight(g, cfg, hv, spots[..], g.Src(i)[k])
      {
        PlaceOne(g, cfg, hv, g.Src(i)[j], tb.srcs[i][j]);
      }
    }

    method PlaceNodes(g: Graph, cfg: Config, ghost hv: seq<HashNode>, tb: Tables)
      requires Fits(g, cfg, hv, spots[..]) && Recorded(g, cfg, hv, tb) && Agrees(g, hv, spots[..])
      modifies spots
      ensures Agrees(g, hv, spots[..]) && Kept(g, cfg, hv, old(spots[..]), spots[..])
      ensures forall i :: 0 <= i < |g.nodes| ==> PlacedRight(g, cfg, hv, spots[..], g.nodes[i])
      ensures forall i, j :: 0 <= i < |g.nodes| && 0 <= j < |g.Src(i)| ==>
              PlacedRight(g, cfg, hv, spots[..], g.Src(i)[j])
    {
      hide PlacedRight;
      ghost var was := spots[..];
      for i := 0 to |g.nodes|
        invariant Agrees(g, hv, spots[..]) && Kept(g, cfg, hv, was, spots[..])
        invariant forall k :: 0 <= k < i ==> PlacedRight(g, cfg, hv, spots[..], g.nodes[k])
        invariant forall k, j :: 0 <= k < i && 0 <= j < |g.Src(k)| ==> PlacedRight(g, cfg, hv, spots[..], g.Src(k)[j])
      {
        PlaceSources(g, cfg, hv, tb, i);
        PlaceOne(g, cfg, hv, g.nodes[i], tb.dsts[i]);
      }
    }

    /** The placing loops of ggml_gallocr_alloc_graph: every tensor of the graph ends up on its planned address. */
    method PlaceGraph(g: Graph, cfg: Config, ghost hv: seq<HashNode>, tb: Tables)
      requires Fits(g, cfg, hv, spots[..]) && Recorded(g, cfg, hv, tb)
      requires forall t :: 0 <= t < spots.Length ==> spots[t] == None
      modifies spots
      ensures Agrees(g, hv, spots[..])
      ensures forall i :: 0 <= i < |g.leafs| ==> PlacedRight(g, cfg, hv, spots[..], g.leafs[i])
      ensures forall i :: 0 <= i < |g.nodes| ==> PlacedRight(g, cfg, hv, spots[..], g.nodes[i])
      ensures forall i, j :: 0 <= i < |g.nodes| && 0 <= j < |g.Src(i)| ==>
              PlacedRight(g, cfg, hv, spots[..], g.Src(i)[j])
    {
      hide PlacedRight;
      PlaceLeafs(g, cfg, hv, tb);
      PlaceNodes(g, cfg, hv, tb);
    }
  }

  // ---------------------------------------------------------------- what the check accepts

  /** v of the later graph, if it is to be placed at all, stands for a tensor u that was placed and is no smaller in the
      buffer u was planned in. */
  ghost predicate NotLarger(g: Graph, cfg: Config, hv: seq<HashNode>, later: Graph, now: Config, u: nat, v: nat)
    requires u < |g.tensors| == |hv| && v < |later.tensors| && hv[u].bufferId < |cfg.bufts| && now.bufts == cfg.bufts
  {
    later.tensors[v].viewSrc.None? && !later.tensors[v].external ==>
      && g.tensors[u].viewSrc.None? && !g.tensors[u].external
      && now.size(cfg.bufts[hv[u].bufferId], v) <= cfg.size(cfg.bufts[hv[u].bufferId], u)
  }

  lemma FitsExactly(g: Graph, cfg: Config, hv: seq<HashNode>, later: Graph, now: Config, u: nat, v: nat)
    requires g.IdsOk() && |hv| == |g.tensors| && forall x :: 0 <= x < |hv| ==> hv[x].bufferId < |cfg.bufts|
    requires u < |hv| && v < |later.tensors| && now.bufts == cfg.bufts
    ensures StillFits(later, now, v, RecordOf(g, cfg, hv, u)) <==> NotLarger(g, cfg, hv, later, now, u, v)
  {
  }

  /** Every node of the later graph, and every source of a node, is no larger than the one in its place. */
  ghost predicate NothingGrew(g: Graph, cfg: Config, hv: seq<HashNode>, later: Graph, now: Config)
    requires g.IdsOk() && later.IdsOk() && |hv| == |g.tensors| && now.bufts == cfg.bufts
    requires forall x :: 0 <= x < |hv| ==> hv[x].bufferId < |cfg.bufts|
    requires |later.nodes| == |g.nodes| && forall i :: 0 <= i < |g.nodes| ==> |later.Src(i)| == |g.Src(i)|
  {
    && (forall i :: 0 <= i < |g.nodes| ==> NotLarger(g, cfg, hv, later, now, g.nodes[i], later.nodes[i]))
    && (forall i, j :: 0 <= i < |g.nodes| && 0 <= j < |g.Src(i)| ==>
          NotLarger(g, cfg, hv, later, now, g.Src(i)[j], later.Src(i)[j]))
  }

  /** The check accepts a later graph with as many nodes and sources exactly when nothing it looks at grew, and nothing
      that had no place needs one. */
  lemma AcceptedExactly(g: Graph, cfg: Config, hv: seq<HashNode>, tb: Tables, later: Graph, now: Config)
    requires g.IdsOk() && later.IdsOk() && |hv| == |g.tensors| && now.bufts == cfg.bufts
    requires forall x :: 0 <= x < |hv| ==> hv[x].bufferId < |cfg.bufts|
    requires |later.nodes| == |g.nodes| && forall i :: 0 <= i < |g.nodes| ==> |later.Src(i)| == |g.Src(i)|
    requires Recorded(g, cfg, hv, tb)
    ensures SlotsOk(now, tb)
    ensures AllFit(later, now, tb, |later.nodes|) <==> NothingGrew(g, cfg, hv, later, now)
  {
    forall i | 0 <= i < |g.nodes|
      ensures StillFits(later, now, later.nodes[i], tb.dsts[i])
              <==> NotLarger(g, cfg, hv, later, now, g.nodes[i], later.nodes[i])
    {
      FitsExactly(g, cfg, hv, later, now, g.nodes[i], later.nodes[i]);
    }
    forall i, j | 0 <= i < |g.nodes| && 0 <= j < |g.Src(i)|
      ensures StillFits(later, now, later.Src(i)[j], tb.srcs[i][j])
              <==> NotLarger(g, cfg, hv, later, now, g.Src(i)[j], later.Src(i)[j])
    {
      FitsExactly(g, cfg, hv, later, now, g.Src(i)[j], later.Src(i)[j]);
    }
    hide StillFits;
    hide NotLarger;
    hide RecordOf;
  }

  // ---------------------------------------------------------------- safety of the reused plan

  /** The bytes tensor t occupies at its planned address under the (possibly smaller) sizes of the later graph. */
  function NewRange(cfg: Config, later: Config, hv: seq<HashNode>, t: nat): Range
    requires t < |hv| && hv[t].bufferId < |cfg.bufts| && later.bufts == cfg.bufts
  {
    Range(PoolOf(cfg, hv[t].bufferId), hv[t].addr, Request(later, hv[t].bufferId, t))
  }

  /** t is a node, or some node reads it: the tensors whose size the reuse check looks at. */
  ghost predicate Checked(g: Graph, t: nat)
    requires g.IdsOk()
  {
    t in g.nodes || exists i, j :: 0 <= i < |g.nodes| && 0 <= j < |g.Src(i)| && g.Src(i)[j] == t
  }

  /** When the check passes, every checked tensor still fits the room its plan gave it. */
  lemma CheckedFits(g: Graph, cfg: Config, later: Config, hv: seq<HashNode>, tb: Tables, t: nat)
    requires CfgOk(cfg) && g.IdsOk() && |hv| == |g.tensors| && forall u :: 0 <= u < |hv| ==>
             hv[u].bufferId < |cfg.bufts|
    requires later.bufts == cfg.bufts && Recorded(g, cfg, hv, tb) && SlotsOk(later, tb)
             && AllFit(g, later, tb, |g.nodes|)
    requires Storable(g, t) && Checked(g, t)
    ensures StillFits(g, later, t, RecordOf(g, cfg, hv, t))
    ensures NewRange(cfg, later, hv, t).size <= RangeOf(cfg, hv, t).size
  {
    if t in g.nodes {
      var i :| 0 <= i < |g.nodes| && g.nodes[i] == t;
      assert StillFits(g, later, g.nodes[i], tb.dsts[i]);
    } else {
      var i, j :| 0 <= i < |g.nodes| && 0 <= j < |g.Src(i)| && g.Src(i)[j] == t;
      assert StillFits(g, later, g.Src(i)[j], tb.srcs[i][j]);
    }
  }

  /** A recorded plan is safe for a later graph of the same shape that passes the check: at every step, distinct
      checked tensors whose contents matter occupy disjoint bytes, except for an in-place node on its source, and
      everything lies inside the chunks the buffers were created with. */
  lemma ReusedPlanIsSafe(g: Graph, cfg: Config, later: Config, maxSizes: seq<nat>, nodeBufs: seq<nat>,
                         leafBufs: seq<nat>,
                         tb: Tables, j: nat, t: nat, u: nat)
    requires CfgOk(cfg) && Ordered(g) && |maxSizes| == |cfg.bufts| && later.bufts == cfg.bufts
    requires Plan(g, cfg, maxSizes, nodeBufs, leafBufs).Some?
    requires var hv := Plan(g, cfg, maxSizes, nodeBufs, leafBufs).value.hv;
             Recorded(g, cfg, hv, tb) && SlotsOk(later, tb) && AllFit(g, later, tb, |g.nodes|)
    requires j < |g.nodes| && t != u && LiveAt(g, t, j) && LiveAt(g, u, j) && Checked(g, t) && Checked(g, u)
    ensures var s := Plan(g, cfg, maxSizes, nodeBufs, leafBufs).value;
            && (|| Apart(NewRange(cfg, later, s.hv, t), NewRange(cfg, later, s.hv, u))
                || (u == g.nodes[j] && RunsInPlaceOn(g, cfg, s.hv, j, t))
                || (t == g.nodes[j] && RunsInPlaceOn(g, cfg, s.hv, j, u)))
            && Below(s.pools, NewRange(cfg, later, s.hv, t))
  {
    hide Plan;
    var s := Plan(g, cfg, maxSizes, nodeBufs, leafBufs).value;
    PlanIsSafe(g, cfg, maxSizes, nodeBufs, leafBufs, j, t, u);
    PlannedInsideChunk(g, cfg, maxSizes, nodeBufs, leafBufs, j, t);
    CheckedFits(g, cfg, later, s.hv, tb, t);
    CheckedFits(g, cfg, later, s.hv, tb, u);
  }

  // ---------------------------------------------------------------- what the check overlooks

  /** A later configuration of the same buffers for which the check answers that nothing has to be reserved again. */
  ghost predicate Passes(g: Graph, cfg: Config, hv: seq<HashNode>, tb: Tables, later: Config)
    requires g.IdsOk() && |hv| == |g.tensors| && forall u :: 0 <= u < |hv| ==> hv[u].bufferId < |cfg.bufts|
    requires Recorded(g, cfg, hv, tb)
  {
    later.bufts == cfg.bufts && SlotsOk(later, tb) && AllFit(g, later, tb, |g.nodes|)
  }

  /** Every leaf the planner placed still fits the slot recorded for it. */
  ghost predicate LeafsFit(g: Graph, cfg: Config, hv: seq<HashNode>, later: Config)
    requires g.IdsOk() && |hv| == |g.tensors| && later.bufts == cfg.bufts
    requires forall u :: 0 <= u < |hv| ==> hv[u].bufferId < |cfg.bufts|
  {
    forall k :: 0 <= k < |g.leafs| ==> StillFits(g, later, g.leafs[k], RecordOf(g, cfg, hv, g.leafs[k]))
  }

  /** Every leaf that the planner places is a source of some node. */
  ghost predicate LeafsAreRead(g: Graph)
    requires g.IdsOk()
  {
    forall k :: 0 <= k < |g.leafs| && Storable(g, g.leafs[k]) ==> Checked(g, g.leafs[k])
  }

  /** The configuration in which tensor t alone has grown by one byte. */
  function Grown(cfg: Config, t: nat): Config {
    var size := cfg.size;
    cfg.(size := (buft, u) => if u == t then size(buft, u) + 1 else size(buft, u))
  }

  /** The check passes although an unread leaf has grown. */
  lemma GrownPasses(g: Graph, cfg: Config, hv: seq<HashNode>, tb: Tables, t: nat)
    requires g.IdsOk() && |hv| == |g.tensors| && forall u :: 0 <= u < |hv| ==> hv[u].bufferId < |cfg.bufts|
    requires Recorded(g, cfg, hv, tb) && Storable(g, t) && !Checked(g, t)
    ensures Passes(g, cfg, hv, tb, Grown(cfg, t)) && !StillFits(g, Grown(cfg, t), t, RecordOf(g, cfg, hv, t))
  {
    var later := Grown(cfg, t);
    assert Request(later, hv[t].bufferId, t) == Request(cfg, hv[t].bufferId, t) + 1;
    forall i | 0 <= i < |g.nodes| ensures StillFits(g, later, g.nodes[i], tb.dsts[i]) {
      assert g.nodes[i] != t;
    }
    forall i, j | 0 <= i < |g.nodes| && 0 <= j < |g.Src(i)| ensures StillFits(g, later, g.Src(i)[j], tb.srcs[i][j]) {
      assert g.Src(i)[j] != t;
    }
  }

  /** The check is good for the leafs, whatever sizes the later graph brings, exactly when some node reads every leaf
      that the planner placed. */
  lemma CheckCoversLeafsExactly(g: Graph, cfg: Config, hv: seq<HashNode>, tb: Tables)
    requires CfgOk(cfg) && g.IdsOk() && |hv| == |g.tensors|
    requires forall u :: 0 <= u < |hv| ==> hv[u].bufferId < |cfg.bufts|
    requires Recorded(g, cfg, hv, tb)
    ensures (forall later: Config :: Passes(g, cfg, hv, tb, later) ==> LeafsFit(g, cfg, hv, later)) <==> LeafsAreRead(g)
  {
    if LeafsAreRead(g) {
      forall later: Config, k | Passes(g, cfg, hv, tb, later) && 0 <= k < |g.leafs|
        ensures StillFits(g, later, g.leafs[k], RecordOf(g, cfg, hv, g.leafs[k]))
      {
        if Storable(g, g.leafs[k]) { CheckedFits(g, cfg, later, hv, tb, g.leafs[k]); }
      }
    } else {
      var k :| 0 <= k < |g.leafs| && Storable(g, g.leafs[k]) && !Checked(g, g.leafs[k]);
      GrownPasses(g, cfg, hv, tb, g.leafs[k]);
      assert !LeafsFit(g, cfg, hv, Grown(cfg, g.leafs[k]));
    }
  }

  /** Where every placed leaf is read, the check looks at everything that is ever live, and the reused plan is safe for
      all tensors. */
  lemma ReusedPlanIsSafeForAll(g: Graph, cfg: Config, later: Config, maxSizes: seq<nat>, nodeBufs: seq<nat>,
                               leafBufs: seq<nat>, tb: Tables, j: nat, t: nat, u: nat)
    requires CfgOk(cfg) && Ordered(g) && |maxSizes| == |cfg.bufts| && LeafsAreRead(g)
    requires Plan(g, cfg, maxSizes, nodeBufs, leafBufs).Some?
    requires var hv := Plan(g, cfg, maxSizes, nodeBufs, leafBufs).value.hv;
             Recorded(g, cfg, hv, tb) && Passes(g, cfg, hv, tb, later)
    requires j < |g.nodes| && t != u && LiveAt(g, t, j) && LiveAt(g, u, j)
    ensures var s := Plan(g, cfg, maxSizes, nodeBufs, leafBufs).value;
            && (|| Apart(NewRange(cfg, later, s.hv, t), NewRange(cfg, later, s.hv, u))
                || (u == g.nodes[j] && RunsInPlaceOn(g, cfg, s.hv, j, t))
                || (t == g.nodes[j] && RunsInPlaceOn(g, cfg, s.hv, j, u)))
            && Below(s.pools, NewRange(cfg, later, s.hv, t))
  {
    hide Plan;
    LiveIsChecked(g, j, t);
    LiveIsChecked(g, j, u);
    ReusedPlanIsSafe(g, cfg, later, maxSizes, nodeBufs, leafBufs, tb, j, t, u);
  }

  lemma LiveIsChecked(g: Graph, j: nat, t: nat)
    requires g.IdsOk() && LeafsAreRead(g) && j < |g.nodes| && LiveAt(g, t, j)
    ensures Checked(g, t)
  {
    if t in g.leafs {
      var k :| 0 <= k < |g.leafs| && g.leafs[k] == t;
    }
  }
}
