/** Every operation of the planner keeps the memory invariant, and what it does to owners and counters. */
module PlannerOwners {
  import opened Wrappers
  import opened Alignment
  import opened TensorAlloc
  import opened TensorGraph
  import opened Planner
  import opened PlannerMemory
  import opened PlannerCounts

  function RangeOf(cfg: Config, hv: seq<HashNode>, t: nat): Range
    requires CfgOk(cfg) && t < |hv| && hv[t].bufferId < |cfg.bufts|
  {
    Range(PoolOf(cfg, hv[t].bufferId), hv[t].addr, Padded(cfg, hv[t].bufferId, t))
  }

  ghost predicate BuffersOk(cfg: Config, hv: seq<HashNode>) {
    CfgOk(cfg) && forall t :: 0 <= t < |hv| ==> hv[t].bufferId < |cfg.bufts|
  }

  /** The ranges owned according to the hash values. */
  ghost function Own(cfg: Config, hv: seq<HashNode>): map<nat, Range>
    requires BuffersOk(cfg, hv)
  {
    map t: nat | t < |hv| && hv[t].owned :: RangeOf(cfg, hv, t)
  }

  /** Tensors the planner itself places. */
  ghost predicate Storable(g: Graph, t: int) {
    0 <= t < |g.tensors| && g.tensors[t].viewSrc.None? && !g.tensors[t].external
  }

  ghost predicate PlanInv(g: Graph, cfg: Config, s: State) {
    && Shape(g, cfg, s)
    && MemInv(s.pools, Own(cfg, s.hv))
    && (forall t :: 0 <= t < |s.hv| && s.hv[t].owned ==> Storable(g, t))
  }

  /** A view's hash entry is never owned, so the branch that reuses a view's root is dead code. */
  lemma ViewsAreNeverReused(g: Graph, cfg: Config, s: State, t: nat)
    requires PlanInv(g, cfg, s) && t < |s.hv|
    ensures !FindReuse(g, cfg, s.hv, t, 0).ViewParent?
  {
  }

  /** The parent whose range AllocateNode(t) takes over, if any. */
  function Taken(g: Graph, cfg: Config, s: State, t: nat): Option<nat>
    requires Shape(g, cfg, s) && t < |s.hv|
  {
    if g.tensors[t].external || s.hv[t].owned || g.IsView(t) || !CanInplace(g.tensors[t].op) then None
    else
      var r := FindReuse(g, cfg, s.hv, t, 0);
      if r.Parent? then Some(r.p) else None
  }

  /** What AllocateNode(t) changes: t becomes owned; at most the taken parent stops being owned; counters stay. */
  ghost predicate AllocEffect(s: State, s': State, t: nat, taken: Option<nat>) {
    && |s'.hv| == |s.hv| && t < |s.hv|
    && s'.hv[t].owned
    && s'.hv[t].nChildren == s.hv[t].nChildren && s'.hv[t].nViews == s.hv[t].nViews
    && (forall u :: 0 <= u < |s.hv| && u != t ==>
        s'.hv[u] == if Some(u) == taken then s.hv[u].(owned := false) else s.hv[u])
  }

  /** The parent p handed its range to t in place. */
  ghost predicate HandedOver(g: Graph, cfg: Config, s: State, s': State, t: nat, p: nat)
    requires Shape(g, cfg, s) && Shape(g, cfg, s')
  {
    && t < |s.hv| && p < |s.hv| && p != t && p in g.tensors[t].src
    && CanInplace(g.tensors[t].op) && cfg.sameLayout(t, p)
    && s.hv[p].owned && !g.tensors[p].output && s.hv[p].nChildren == 1 && s.hv[p].nViews == 0
    && var a, b := RangeOf(cfg, s'.hv, t), RangeOf(cfg, s.hv, p);
       a.pool == b.pool && a.addr == b.addr && a.size <= b.size
  }

  lemma OwnAfterPlace(cfg: Config, hv: seq<HashNode>, hv': seq<HashNode>, t: nat)
    requires BuffersOk(cfg, hv) && BuffersOk(cfg, hv') && t < |hv| == |hv'| && hv' == hv[t := hv'[t]] && hv'[t].owned
    ensures Own(cfg, hv') == Own(cfg, hv)[t := RangeOf(cfg, hv', t)]
  {
  }

  lemma AllocFreshKeepsInv(g: Graph, cfg: Config, s: State, t: nat, buf: nat)
    requires PlanInv(g, cfg, s) && t < |s.hv| && buf < |cfg.bufts| && !s.hv[t].owned && Storable(g, t)
    requires AllocFresh(g, cfg, s, t, buf).Some?
    ensures PlanInv(g, cfg, AllocFresh(g, cfg, s, t, buf).value)
    ensures AllocEffect(s, AllocFresh(g, cfg, s, t, buf).value, t, None)
  {
    hide MemInv;
    hide Alloc;
    var s' := AllocFresh(g, cfg, s, t, buf).value;
    MemAlloc(s.pools, Own(cfg, s.hv), t, PoolOf(cfg, buf), Request(cfg, buf, t));
    OwnAfterPlace(cfg, s.hv, s'.hv, t);
  }

  /** free_extra_space for a node that already holds its parent's whole range. */
  lemma FreeExtraMeaning(cfg: Config, hv: seq<HashNode>, pools: seq<Talloc>, own: map<nat, Range>, t: nat, p: nat)
    requires CfgOk(cfg) && |pools| == |cfg.bufts| && t < |hv| && p < |hv|
    requires hv[t].bufferId == hv[p].bufferId < |cfg.bufts|
    requires forall i :: 0 <= i < |pools| ==> pools[i].alignment == cfg.align[i]
    requires hv[p].addr.chunk < |pools[PoolOf(cfg, hv[p].bufferId)].chunks|
    requires MemInv(pools, own) && t in own && own[t] == RangeOf(cfg, hv, p)
    requires FreeExtra(cfg, hv, pools, t, p).Some?
    ensures Padded(cfg, hv[t].bufferId, t) <= own[t].size
    ensures MemInv(FreeExtra(cfg, hv, pools, t, p).value,
            own[t := Range(own[t].pool, own[t].addr, Padded(cfg, hv[t].bufferId, t))])
  {
    var r, buf := own[t], hv[p].bufferId;
    var keep := Padded(cfg, buf, t);
    AlignUpMonotone(Request(cfg, buf, t), Request(cfg, buf, p), cfg.align[r.pool]);
    if keep < r.size {
      MemShrink(pools, own, t, keep);
    } else {
      assert own[t := Range(r.pool, r.addr, keep)] == own;
    }
  }

  /** Ownership after p's entry was cleared and t's entry copied p's address. */
  lemma OwnAfterTakeOver(cfg: Config, hv: seq<HashNode>, hv': seq<HashNode>, t: nat, p: nat)
    requires BuffersOk(cfg, hv) && t < |hv| && p < |hv| && t != p && hv[p].owned && !hv[t].owned
    requires hv' == hv[p := hv[p].(owned := false)][t := hv[t].(owned := true, bufferId := hv[p].bufferId,
             addr := hv[p].addr)]
    ensures BuffersOk(cfg, hv')
    ensures var r := RangeOf(cfg, hv, p);
            Own(cfg, hv') == (Without(Own(cfg, hv), p)[t := r])[t := Range(r.pool, r.addr,
              Padded(cfg, hv[p].bufferId, t))]
  {
  }

  lemma TakeOverKeepsInv(g: Graph, cfg: Config, s: State, t: nat, p: nat)
    requires PlanInv(g, cfg, s) && t < |s.hv| && p < |s.hv| && t != p && s.hv[p].owned && !s.hv[t].owned
             && Storable(g, t)
    requires TakeOver(g, cfg, s, t, p).Some?
    ensures var s' := TakeOver(g, cfg, s, t, p).value;
            && PlanInv(g, cfg, s') && AllocEffect(s, s', t, Some(p))
            && var a, b := RangeOf(cfg, s'.hv, t), RangeOf(cfg, s.hv, p);
               a.pool == b.pool && a.addr == b.addr && a.size <= b.size
  {
    hide MemInv;
    hide FreeExtra;
    var s' := TakeOver(g, cfg, s, t, p).value;
    var own := Own(cfg, s.hv);
    assert own[p] == RangeOf(cfg, s.hv, p);
    MemHandOver(s.pools, own, p, t);
    var mid := Without(own, p)[t := own[p]];
    OwnAfterTakeOver(cfg, s.hv, s'.hv, t, p);
    hide Own;
    FreeExtraMeaning(cfg, s'.hv, s.pools, mid, t, p);
  }

  /** allocate_node on any tensor that is not its own source. */
  lemma AllocateNodeKeepsInv(g: Graph, cfg: Config, s: State, t: nat, buf: nat)
    requires PlanInv(g, cfg, s) && t < |s.hv| && buf < |cfg.bufts|
             && (CanInplace(g.tensors[t].op) ==> t !in g.tensors[t].src)
    requires AllocateNode(g, cfg, s, t, buf).Some?
    ensures var s' := AllocateNode(g, cfg, s, t, buf).value;
            && PlanInv(g, cfg, s')
            && (if Storable(g, t) && !s.hv[t].owned then AllocEffect(s, s', t, Taken(g, cfg, s, t)) else s' == s)
            && (Taken(g, cfg, s, t).Some? ==> HandedOver(g, cfg, s, s', t, Taken(g, cfg, s, t).value))
  {
    ViewsAreNeverReused(g, cfg, s, t);
    if Storable(g, t) && !s.hv[t].owned {
      if Taken(g, cfg, s, t).Some? {
        var p := Taken(g, cfg, s, t).value;
        TakeOverKeepsInv(g, cfg, s, t, p);
      } else {
        AllocFreshKeepsInv(g, cfg, s, t, buf);
      }
    }
  }

  lemma FreeNodeKeepsInv(g: Graph, cfg: Config, s: State, t: nat)
    requires PlanInv(g, cfg, s) && t < |s.hv| && s.hv[t].owned
    requires FreeNode(g, cfg, s, t).Some?
    ensures var s' := FreeNode(g, cfg, s, t).value;
            && PlanInv(g, cfg, s')
            && s'.hv == if g.tensors[t].output then s.hv else s.hv[t := s.hv[t].(owned := false)]
  {
    if !g.tensors[t].output {
      var s' := FreeNode(g, cfg, s, t).value;
      var own := Own(cfg, s.hv);
      MemFree(s.pools, own, t, Request(cfg, s.hv[t].bufferId, t));
      assert Own(cfg, s'.hv) == Without(own, t);
    }
  }

  /** Counter updates do not touch ownership. */
  lemma CountersKeepInv(g: Graph, cfg: Config, s: State, hv: seq<HashNode>)
    requires PlanInv(g, cfg, s) && |hv| == |s.hv|
    requires forall t :: 0 <= t < |hv| ==>
             hv[t].owned == s.hv[t].owned && hv[t].addr == s.hv[t].addr && hv[t].bufferId == s.hv[t].bufferId
    ensures PlanInv(g, cfg, s.(hv := hv))
  {
    assert BuffersOk(cfg, hv);
    assert Own(cfg, hv) == Own(cfg, s.hv);
  }
}
