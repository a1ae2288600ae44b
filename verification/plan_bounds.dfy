/** Every planned range ends at or below the recorded size of its chunk, which is what the buffers are created with. */
module PlanBounds {
  import opened Wrappers
  import opened Alignment
  import opened FreeList
  import opened TensorAlloc
  import opened TensorGraph
  import opened Planner
  import opened PlannerMemory
  import opened PlannerCounts
  import opened PlannerOwners
  import opened PlannerSafety
  import opened PlanSafety

  /** Chunks are only added, and their recorded sizes never shrink. */
  ghost predicate PoolGrows(t: Talloc, u: Talloc) {
    |t.chunks| <= |u.chunks| && forall c :: 0 <= c < |t.chunks| ==> t.chunks[c].maxSize <= u.chunks[c].maxSize
  }

  ghost predicate Grows(a: seq<Talloc>, b: seq<Talloc>) {
    |a| == |b| && forall i :: 0 <= i < |a| ==> PoolGrows(a[i], b[i])
  }

  lemma GrowsTransitive(a: seq<Talloc>, b: seq<Talloc>, c: seq<Talloc>)
    requires Grows(a, b) && Grows(b, c)
    ensures Grows(a, c)
  {
    forall i | 0 <= i < |a| ensures PoolGrows(a[i], c[i]) {
      assert PoolGrows(a[i], b[i]) && PoolGrows(b[i], c[i]);
    }
  }

  lemma AllocGrows(t: Talloc, request: nat)
    requires t.alignment > 0 && AlignUp(request, t.alignment) <= HALF_MAX && Alloc(t, request).Some?
    ensures PoolGrows(t, Alloc(t, request).value.0)
  {
  }

  lemma FreeGrows(t: Talloc, addr: Address, request: nat)
    requires t.alignment > 0 && addr.chunk < |t.chunks| && FreeBytes(t, addr, request).Some?
    ensures PoolGrows(t, FreeBytes(t, addr, request).value)
  {
  }

  lemma AllocFreshGrows(g: Graph, cfg: Config, s: State, t: nat, buf: nat)
    requires Shape(g, cfg, s) && t < |s.hv| && buf < |cfg.bufts| && AllocFresh(g, cfg, s, t, buf).Some?
    ensures Grows(s.pools, AllocFresh(g, cfg, s, t, buf).value.pools)
  {
    hide Alloc;
    AllocGrows(s.pools[PoolOf(cfg, buf)], Request(cfg, buf, t));
  }

  lemma FreeExtraGrows(cfg: Config, hv: seq<HashNode>, pools: seq<Talloc>, node: nat, parent: nat)
    requires CfgOk(cfg) && |pools| == |cfg.bufts| && node < |hv| && parent < |hv|
    requires hv[node].bufferId < |cfg.bufts| && hv[parent].bufferId < |cfg.bufts|
    requires forall i :: 0 <= i < |pools| ==> pools[i].alignment == cfg.align[i]
    requires hv[parent].addr.chunk < |pools[PoolOf(cfg, hv[parent].bufferId)].chunks|
    requires FreeExtra(cfg, hv, pools, node, parent).Some?
    ensures Grows(pools, FreeExtra(cfg, hv, pools, node, parent).value)
  {
    hide FreeBytes;
    var i := PoolOf(cfg, hv[parent].bufferId);
    var ps, ns := AlignUp(Request(cfg, hv[parent].bufferId, parent), cfg.align[i]),
      AlignUp(Request(cfg, hv[node].bufferId, node), cfg.align[i]);
    if ps > ns { FreeGrows(pools[i], Address(hv[parent].addr.chunk, hv[parent].addr.offset + ns), ps - ns); }
  }

  lemma TakeOverGrows(g: Graph, cfg: Config, s: State, t: nat, p: nat)
    requires Shape(g, cfg, s) && t < |s.hv| && p < |s.hv| && t != p && s.hv[p].owned && TakeOver(g, cfg, s, t, p).Some?
    ensures Grows(s.pools, TakeOver(g, cfg, s, t, p).value.pools)
  {
    hide FreeExtra;
    var n := s.hv[t].(owned := true, bufferId := s.hv[p].bufferId, addr := s.hv[p].addr);
    FreeExtraGrows(cfg, s.hv[p := s.hv[p].(owned := false)][t := n], s.pools, t, p);
  }

  lemma TakeOverViewGrows(g: Graph, cfg: Config, s: State, t: nat, p: nat, root: nat)
    requires Shape(g, cfg, s) && t < |s.hv| && p < |s.hv| && root < |s.hv| && t != p && t != root && s.hv[p].owned
             && s.hv[root].owned
    requires TakeOverView(g, cfg, s, t, p, root).Some?
    ensures Grows(s.pools, TakeOverView(g, cfg, s, t, p, root).value.pools)
  {
    hide FreeExtra;
    var n := s.hv[t].(owned := true, bufferId := s.hv[p].bufferId, addr := s.hv[p].addr);
    var hv0 := s.hv[p := s.hv[p].(owned := false)];
    FreeExtraGrows(cfg, hv0[root := hv0[root].(owned := false)][t := n], s.pools, t, root);
  }

  lemma AllocateNodeGrows(g: Graph, cfg: Config, s: State, t: nat, buf: nat)
    requires Shape(g, cfg, s) && t < |s.hv| && buf < |cfg.bufts| && AllocateNode(g, cfg, s, t, buf).Some?
    ensures Grows(s.pools, AllocateNode(g, cfg, s, t, buf).value.pools)
  {
    hide FindReuse;
    hide AllocFresh;
    hide TakeOver;
    hide TakeOverView;
    if AllocateNode(g, cfg, s, t, buf) == Some(s) {
    } else if !CanInplace(g.tensors[t].op) || FindReuse(g, cfg, s.hv, t, 0).NoReuse? {
      AllocFreshGrows(g, cfg, s, t, buf);
    } else {
      match FindReuse(g, cfg, s.hv, t, 0)
      case Parent(p) => TakeOverGrows(g, cfg, s, t, p);
      case ViewParent(p) => TakeOverViewGrows(g, cfg, s, t, p, g.tensors[p].viewSrc.value);
    }
  }

  lemma FreeNodeGrows(g: Graph, cfg: Config, s: State, t: nat)
    requires Shape(g, cfg, s) && t < |s.hv| && s.hv[t].owned && FreeNode(g, cfg, s, t).Some?
    ensures Grows(s.pools, FreeNode(g, cfg, s, t).value.pools)
  {
    if !g.tensors[t].output {
      FreeGrows(s.pools[PoolOf(cfg, s.hv[t].bufferId)], s.hv[t].addr, Request(cfg, s.hv[t].bufferId, t));
    }
  }

  lemma {:induction false} UpdateParentsGrows(g: Graph, cfg: Config, s: State, k: nat, j: nat)
    requires Shape(g, cfg, s) && k < |g.nodes| && j <= |g.Src(k)| && UpdateParents(g, cfg, s, k, j).Some?
    ensures Grows(s.pools, UpdateParents(g, cfg, s, k, j).value.pools)
    decreases |g.Src(k)| - j
  {
    hide FreeNode;
    if j < |g.Src(k)| {
      var p := g.Src(k)[j];
      var s' := UpdateParent(g, cfg, s, p).value;
      UpdateParentGrows(g, cfg, s, p);
      UpdateParentsGrows(g, cfg, s', k, j + 1);
      GrowsTransitive(s.pools, s'.pools, UpdateParents(g, cfg, s, k, j).value.pools);
    }
  }

  lemma UpdateParentGrows(g: Graph, cfg: Config, s: State, p: nat)
    requires Shape(g, cfg, s) && p < |s.hv| && UpdateParent(g, cfg, s, p).Some?
    ensures Grows(s.pools, UpdateParent(g, cfg, s, p).value.pools)
  {
    hide FreeNode;
    var s1 := s.(hv := AddChildren(s.hv, p, -1));
    if s1.hv[p].nChildren == 0 && s1.hv[p].nViews == 0 {
      if g.IsView(p) {
        var root := g.tensors[p].viewSrc.value;
        var s2 := s1.(hv := AddViews(s1.hv, root, -1));
        if s2.hv[root].nViews == 0 && s2.hv[root].nChildren == 0
          && s2.hv[root].owned { FreeNodeGrows(g, cfg, s2, root); }
      } else if s1.hv[p].owned {
        FreeNodeGrows(g, cfg, s1, p);
      }
    }
  }

  lemma {:induction false} AllocParentsGrows(g: Graph, cfg: Config, buf: nat, s: State, k: nat, j: nat)
    requires Shape(g, cfg, s) && k < |g.nodes| && j <= |g.Src(k)| && buf < |cfg.bufts|
             && AllocParents(g, cfg, buf, s, k, j).Some?
    ensures Grows(s.pools, AllocParents(g, cfg, buf, s, k, j).value.pools)
    decreases |g.Src(k)| - j
  {
    hide AllocateNode;
    if j < |g.Src(k)| {
      var s' := AllocateNode(g, cfg, s, g.Src(k)[j], buf).value;
      AllocateNodeGrows(g, cfg, s, g.Src(k)[j], buf);
      AllocParentsGrows(g, cfg, buf, s', k, j + 1);
      GrowsTransitive(s.pools, s'.pools, AllocParents(g, cfg, buf, s, k, j).value.pools);
    }
  }

  /** From the state in which node k executes to the end of step k. */
  lemma StepGrows(g: Graph, cfg: Config, buf: nat, s: State, k: nat)
    requires Shape(g, cfg, s) && k < |g.nodes| && buf < |cfg.bufts| && Step(g, cfg, buf, s, k).Some?
    ensures Grows(s.pools, Step(g, cfg, buf, s, k).value.pools)
    ensures Prepare(g, cfg, buf, s, k).Some? && Grows(Prepare(g, cfg, buf, s, k).value.pools,
              Step(g, cfg, buf, s, k).value.pools)
  {
    hide AllocateNode;
    hide UpdateParents;
    hide AllocParents;
    var a := AllocParents(g, cfg, buf, s, k, 0).value;
    var m := AllocateNode(g, cfg, a, g.nodes[k], buf).value;
    AllocParentsGrows(g, cfg, buf, s, k, 0);
    AllocateNodeGrows(g, cfg, a, g.nodes[k], buf);
    UpdateParentsGrows(g, cfg, m, k, 0);
    GrowsTransitive(s.pools, a.pools, m.pools);
    GrowsTransitive(s.pools, m.pools, Step(g, cfg, buf, s, k).value.pools);
  }

  lemma {:induction false} LoopGrows(g: Graph, cfg: Config, nodeBufs: seq<nat>, s: State, k: nat, n: nat)
    requires Shape(g, cfg, s) && k <= n <= |g.nodes| && Before(g, cfg, nodeBufs, s, n).Some?
    ensures Before(g, cfg, nodeBufs, s, k).Some?
    ensures Grows(Before(g, cfg, nodeBufs, s, k).value.pools, Before(g, cfg, nodeBufs, s, n).value.pools)
    decreases n
  {
    hide Step;
    BeforeIsDefined(g, cfg, nodeBufs, s, k, n);
    if k < n {
      BeforeIsDefined(g, cfg, nodeBufs, s, n - 1, n);
      LoopGrows(g, cfg, nodeBufs, s, k, n - 1);
      var b := Before(g, cfg, nodeBufs, s, n - 1).value;
      StepGrows(g, cfg, BufOf(cfg, nodeBufs, n - 1), b, n - 1);
      GrowsTransitive(Before(g, cfg, nodeBufs, s, k).value.pools, b.pools, Before(g, cfg, nodeBufs, s, n).value.pools);
    }
  }

  /** The range r ends at or below the recorded size of its chunk. */
  ghost predicate Below(pools: seq<Talloc>, r: Range) {
    r.pool < |pools| && r.addr.chunk < |pools[r.pool].chunks|
    && r.addr.offset + r.size <= pools[r.pool].chunks[r.addr.chunk].maxSize
  }

  lemma OwnedIsBelow(pools: seq<Talloc>, own: map<nat, Range>, t: nat)
    requires MemInv(pools, own) && t in own
    ensures Below(pools, own[t])
  {
    var r := own[t];
    assert Placed(pools, r);
    var last := r.addr.offset + r.size - 1;
    OwnedIsUsed(pools, own, t, last);
    assert ChunkInv(pools[r.pool].chunks[r.addr.chunk], pools[r.pool].alignment);
  }

  lemma BelowStays(a: seq<Talloc>, b: seq<Talloc>, r: Range)
    requires Grows(a, b) && Below(a, r)
    ensures Below(b, r)
  {
    assert PoolGrows(a[r.pool], b[r.pool]);
  }

  /** In every plan, a tensor whose contents matter at some step lies inside its chunk as finally sized. */
  lemma PlannedInsideChunk(g: Graph, cfg: Config, maxSizes: seq<nat>, nodeBufs: seq<nat>, leafBufs: seq<nat>, j: nat,
                           t: nat)
    requires CfgOk(cfg) && Ordered(g) && |maxSizes| == |cfg.bufts|
    requires Plan(g, cfg, maxSizes, nodeBufs, leafBufs).Some?
    requires j < |g.nodes| && LiveAt(g, t, j)
    ensures var s := Plan(g, cfg, maxSizes, nodeBufs, leafBufs).value;
            Below(s.pools, RangeOf(cfg, s.hv, t))
  {
    hide LoopInv;
    hide Step;
    hide Prepare;
    hide Counted;
    hide Before;
    hide BufOf;
    StartOfLoop(g, cfg, maxSizes, nodeBufs, leafBufs);
    BelowInLoop(g, cfg, nodeBufs, Counted(g, cfg, maxSizes, nodeBufs, leafBufs).value, j, t);
  }

  lemma BelowInLoop(g: Graph, cfg: Config, nodeBufs: seq<nat>, s0: State, j: nat, t: nat)
    requires LoopInv(g, cfg, s0, 0) && Before(g, cfg, nodeBufs, s0, |g.nodes|).Some?
    requires j < |g.nodes| && LiveAt(g, t, j)
    ensures var s := Before(g, cfg, nodeBufs, s0, |g.nodes|).value;
            Below(s.pools, RangeOf(cfg, s.hv, t))
  {
    hide Prepare;
    hide AllocateNode;
    hide UpdateParents;
    hide Step;
    hide LoopInv;
    LoopInvShape(g, cfg, s0, 0);
    var n, buf := |g.nodes|, BufOf(cfg, nodeBufs, j);
    BeforeIsDefined(g, cfg, nodeBufs, s0, j + 1, n);
    StateAtStep(g, cfg, nodeBufs, s0, j);
    var s := Before(g, cfg, nodeBufs, s0, j).value;
    LoopKeepsInv(g, cfg, nodeBufs, s0, j);
    PlacesAreFinal(g, cfg, nodeBufs, s0, j + 1, n);
    var m, hv := Prepare(g, cfg, buf, s, j).value, Before(g, cfg, nodeBufs, s0, n).value.hv;
    LiveIsBelow(g, cfg, buf, s, j, t);
    SameRange(cfg, m.hv, hv, t);
    StepFromBefore(g, cfg, nodeBufs, s0, j);
    StepGrows(g, cfg, buf, s, j);
    LoopGrows(g, cfg, nodeBufs, s0, j + 1, n);
    var e := Before(g, cfg, nodeBufs, s0, j + 1).value;
    BelowStays(m.pools, e.pools, RangeOf(cfg, m.hv, t));
    BelowStays(e.pools, Before(g, cfg, nodeBufs, s0, n).value.pools, RangeOf(cfg, m.hv, t));
  }

  lemma StepFromBefore(g: Graph, cfg: Config, nodeBufs: seq<nat>, s: State, j: nat)
    requires Shape(g, cfg, s) && j < |g.nodes| && Before(g, cfg, nodeBufs, s, j + 1).Some?
    ensures Before(g, cfg, nodeBufs, s, j).Some?
    ensures Step(g, cfg, BufOf(cfg, nodeBufs, j), Before(g, cfg, nodeBufs, s, j).value, j)
            == Before(g, cfg, nodeBufs, s, j + 1)
  {
    hide Step;
  }

  /** In the state in which node j executes, everything live lies below the recorded sizes. */
  lemma LiveIsBelow(g: Graph, cfg: Config, buf: nat, s: State, j: nat, t: nat)
    requires LoopInv(g, cfg, s, j) && j < |g.nodes| && buf < |cfg.bufts| && Prepare(g, cfg, buf, s, j).Some?
    requires LiveAt(g, t, j)
    ensures var m := Prepare(g, cfg, buf, s, j).value; Below(m.pools, RangeOf(cfg, m.hv, t))
  {
    hide Prepare;
    hide AllocateNode;
    hide Taken;
    var m := Prepare(g, cfg, buf, s, j).value;
    PrepareMeaning(g, cfg, buf, s, j);
    if t == g.nodes[j] {
      OwnedIsBelow(m.pools, Own(cfg, m.hv), t);
    } else {
      LiveBeforeIsOwned(g, cfg, s, t, j);
      OwnedIsBelow(s.pools, Own(cfg, s.hv), t);
      ParentsAlreadyPlaced(g, cfg, buf, s, j, 0);
      AllocateNodeGrows(g, cfg, s, g.nodes[j], buf);
      BelowStays(s.pools, m.pools, RangeOf(cfg, s.hv, t));
    }
  }
}
