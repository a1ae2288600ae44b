/** The in-place code of the graph allocator, proved against module Planner. The dynamic allocators are held
    as values; their own in-place code is in module DynTallocr. */
module Gallocr {
  import opened Wrappers
  import opened Alignment
  import opened TensorAlloc
  import opened TensorGraph
  import opened Planner

  /** struct ggml_gallocr, without the backend buffers themselves. */
  class GraphAllocator {
    const hv: array<HashNode>
    var pools: seq<Talloc>

    ghost function Now(): State
      reads this, hv
    {
      State(hv[..], pools)
    }

    constructor (g: Graph, cfg: Config, maxSizes: seq<nat>)
      requires CfgOk(cfg) && g.IdsOk() && |maxSizes| == |cfg.bufts|
      ensures fresh(hv) && Now() == InitState(g, cfg, maxSizes)
    {
      hv := new HashNode[|g.tensors|](_ => FreshNode);
      pools := seq(|cfg.bufts|, i requires 0 <= i < |cfg.bufts| => Talloc(cfg.align[i],
          if maxSizes[i] < HALF_MAX then maxSizes[i] else HALF_MAX, []));
    }

    method Give(t: nat, h: HashNode)
      requires t < hv.Length
      modifies hv
      ensures hv[..] == old(hv[..])[t := h]
    {
      hv[t] := h;
    }

    /** ggml_gallocr_free_extra_space */
    method FreeExtraSpace(cfg: Config, node: nat, parent: nat) returns (ok: bool)
      requires CfgOk(cfg) && |pools| == |cfg.bufts| && node < hv.Length && parent < hv.Length
      requires hv[node].bufferId < |cfg.bufts| && hv[parent].bufferId < |cfg.bufts|
      requires forall i :: 0 <= i < |pools| ==> pools[i].alignment == cfg.align[i]
      requires hv[parent].addr.chunk < |pools[PoolOf(cfg, hv[parent].bufferId)].chunks|
      modifies this`pools
      ensures FreeExtra(cfg, hv[..], old(pools), node, parent) == if ok then Some(pools) else None
    {
      var i := PoolOf(cfg, hv[parent].bufferId);
      var parentSize := Request(cfg, hv[parent].bufferId, parent);
      var nodeSize := Request(cfg, hv[node].bufferId, node);
      if parentSize < nodeSize { return false; }
      parentSize := AlignUp(parentSize, cfg.align[i]);
      nodeSize := AlignUp(nodeSize, cfg.align[i]);
      if parentSize > nodeSize {
        var addr := Address(hv[parent].addr.chunk, hv[parent].addr.offset + nodeSize);
        var u := FreeBytes(pools[i], addr, parentSize - nodeSize);
        if u.None? { return false; }
        pools := pools[i := u.value];
      }
      return true;
    }

    /** The loop over the sources in ggml_gallocr_allocate_node. */
    method ScanParents(g: Graph, cfg: Config, t: nat) returns (r: Reuse)
      requires g.IdsOk() && hv.Length == |g.tensors| && t < hv.Length
      ensures r == FindReuse(g, cfg, hv[..], t, 0)
    {
      var i := 0;
      while i < |g.tensors[t].src|
        invariant i <= |g.tensors[t].src|
        invariant FindReuse(g, cfg, hv[..], t, 0) == FindReuse(g, cfg, hv[..], t, i)
      {
        var p := g.tensors[t].src[i];
        var tp := g.tensors[p];
        if hv[p].owned && !tp.output && !(tp.viewSrc.Some? && g.tensors[tp.viewSrc.value].output)
           && cfg.sameLayout(t, p) && hv[p].nChildren == 1 && hv[p].nViews == 0 {
          if tp.viewSrc.Some? {
            var root := tp.viewSrc.value;
            if hv[root].nViews == 1 && hv[root].nChildren == 0 && cfg.sameData(p) { return ViewParent(p); }
          } else {
            return Parent(p);
          }
        }
        i := i + 1;
      }
      return NoReuse;
    }

    /** ggml_gallocr_allocate_node; ok is false where the source aborts. */
    method AllocateNode(g: Graph, cfg: Config, t: nat, buf: nat) returns (ok: bool)
      requires Shape(g, cfg, Now()) && t < hv.Length && buf < |cfg.bufts|
      modifies this`pools, hv
      ensures Planner.AllocateNode(g, cfg, old(Now()), t, buf) == if ok then Some(Now()) else None
    {
      hide FindReuse;
      hide TensorAlloc.Alloc;
      hide FreeExtra;
      ghost var s := Now();
      if g.tensors[t].external || hv[t].owned || g.tensors[t].viewSrc.Some? { return true; }
      if CanInplace(g.tensors[t].op) {
        var r := ScanParents(g, cfg, t);
        if r.Parent? {
          var p := r.p;
          Give(t, hv[t].(owned := true, bufferId := hv[p].bufferId, addr := hv[p].addr));
          Give(p, hv[p].(owned := false));
          assert hv[..] == s.hv[p := s.hv[p].(owned := false)][t := s.hv[t].(owned := true,
                 bufferId := s.hv[p].bufferId, addr := s.hv[p].addr)];
          ok := FreeExtraSpace(cfg, t, p);
          return;
        }
        if r.ViewParent? {
          var p, root := r.p, g.tensors[r.p].viewSrc.value;
          if root == t || !hv[root].owned { return false; }
          Give(t, hv[t].(owned := true, bufferId := hv[p].bufferId, addr := hv[p].addr));
          Give(p, hv[p].(owned := false));
          Give(root, hv[root].(owned := false));
          ghost var hv0 := s.hv[p := s.hv[p].(owned := false)];
          assert hv[..] == hv0[root := hv0[root].(owned := false)][t := s.hv[t].(owned := true,
                 bufferId := s.hv[p].bufferId, addr := s.hv[p].addr)];
          ok := FreeExtraSpace(cfg, t, root);
          return;
        }
      }
      var i := PoolOf(cfg, buf);
      var a := TensorAlloc.Alloc(pools[i], Request(cfg, buf, t));
      if a.None? { return false; }
      Give(t, hv[t].(owned := true, bufferId := buf, addr := a.value.1));
      pools := pools[i := a.value.0];
      return true;
    }

    /** ggml_gallocr_free_node */
    method FreeNode(g: Graph, cfg: Config, t: nat) returns (ok: bool)
      requires Shape(g, cfg, Now()) && t < hv.Length && hv[t].owned
      modifies this`pools, hv
      ensures Planner.FreeNode(g, cfg, old(Now()), t) == if ok then Some(Now()) else None
    {
      if g.tensors[t].output { return true; }
      var i := PoolOf(cfg, hv[t].bufferId);
      var u := FreeBytes(pools[i], hv[t].addr, Request(cfg, hv[t].bufferId, t));
      if u.None? { return false; }
      pools := pools[i := u.value];
      Give(t, hv[t].(owned := false));
      return true;
    }

    /** First loop of ggml_gallocr_alloc_graph_impl. */
    method PlaceLeafs(g: Graph, cfg: Config, leafBufs: seq<nat>) returns (ok: bool)
      requires Shape(g, cfg, Now())
      modifies this`pools, hv
      ensures AllocLeafs(g, cfg, leafBufs, old(Now()), 0) == if ok then Some(Now()) else None
    {
      hide Planner.AllocateNode;
      ghost var s := Now();
      for i := 0 to |g.leafs|
        invariant Shape(g, cfg, Now())
        invariant AllocLeafs(g, cfg, leafBufs, s, 0) == AllocLeafs(g, cfg, leafBufs, Now(), i)
      {
        var placed := AllocateNode(g, cfg, g.leafs[i], BufOf(cfg, leafBufs, i));
        if !placed { return false; }
      }
      return true;
    }

    /** Body of the counting loop for node k. */
    method CountNode(g: Graph, cfg: Config, buf: nat, k: nat) returns (ok: bool)
      requires Shape(g, cfg, Now()) && k < |g.nodes| && buf < |cfg.bufts|
      modifies this`pools, hv
      ensures Planner.CountNode(g, cfg, buf, old(Now()), k) == if ok then Some(Now()) else None
    {
      hide Planner.AllocateNode;
      var t := g.nodes[k];
      if g.tensors[t].viewSrc.Some? && g.tensors[t].op != NONE {
        var root := g.tensors[t].viewSrc.value;
        Give(root, hv[root].(nViews := hv[root].nViews + 1));
      }
      if g.tensors[t].input {
        var placed := AllocateNode(g, cfg, t, buf);
        if !placed { return false; }
      }
      ok := CountSources(g, cfg, buf, k);
    }

    method CountSources(g: Graph, cfg: Config, buf: nat, k: nat) returns (ok: bool)
      requires Shape(g, cfg, Now()) && k < |g.nodes| && buf < |cfg.bufts|
      modifies this`pools, hv
      ensures Planner.CountSources(g, cfg, buf, old(Now()), k, 0) == if ok then Some(Now()) else None
    {
      hide Planner.AllocateNode;
      ghost var s := Now();
      for j := 0 to |g.Src(k)|
        invariant Shape(g, cfg, Now())
        invariant Planner.CountSources(g, cfg, buf, s, k, 0) == Planner.CountSources(g, cfg, buf, Now(), k, j)
      {
        var src := g.Src(k)[j];
        Give(src, hv[src].(nChildren := hv[src].nChildren + 1));
        if g.tensors[src].input {
          var placed := AllocateNode(g, cfg, src, buf);
          if !placed { return false; }
        }
      }
      return true;
    }

    /** Second loop of ggml_gallocr_alloc_graph_impl. */
    method CountAll(g: Graph, cfg: Config, nodeBufs: seq<nat>) returns (ok: bool)
      requires Shape(g, cfg, Now())
      modifies this`pools, hv
      ensures Planner.CountAll(g, cfg, nodeBufs, old(Now()), 0) == if ok then Some(Now()) else None
    {
      hide Planner.CountNode;
      ghost var s := Now();
      for k := 0 to |g.nodes|
        invariant Shape(g, cfg, Now())
        invariant Planner.CountAll(g, cfg, nodeBufs, s, 0) == Planner.CountAll(g, cfg, nodeBufs, Now(), k)
      {
        var counted := CountNode(g, cfg, BufOf(cfg, nodeBufs, k), k);
        if !counted { return false; }
      }
      return true;
    }

    /** "update parents" for one source. */
    method UpdateParent(g: Graph, cfg: Config, p: nat) returns (ok: bool)
      requires Shape(g, cfg, Now()) && p < hv.Length
      modifies this`pools, hv
      ensures Planner.UpdateParent(g, cfg, old(Now()), p) == if ok then Some(Now()) else None
    {
      hide Planner.FreeNode;
      Give(p, hv[p].(nChildren := hv[p].nChildren - 1));
      if hv[p].nChildren == 0 && hv[p].nViews == 0 {
        if g.tensors[p].viewSrc.Some? {
          var root := g.tensors[p].viewSrc.value;
          Give(root, hv[root].(nViews := hv[root].nViews - 1));
          if hv[root].nViews == 0 && hv[root].nChildren == 0 && hv[root].owned {
            ok := FreeNode(g, cfg, root);
            return;
          }
        } else if hv[p].owned {
          ok := FreeNode(g, cfg, p);
          return;
        }
      }
      return true;
    }

    /** Body of the allocation loop for node k. */
    method RunStep(g: Graph, cfg: Config, buf: nat, k: nat) returns (ok: bool)
      requires Shape(g, cfg, Now()) && k < |g.nodes| && buf < |cfg.bufts|
      modifies this`pools, hv
      ensures Step(g, cfg, buf, old(Now()), k) == if ok then Some(Now()) else None
    {
      hide Planner.AllocateNode;
      hide Planner.UpdateParent;
      ghost var s := Now();
      for j := 0 to |g.Src(k)|
        invariant Shape(g, cfg, Now())
        invariant AllocParents(g, cfg, buf, s, k, 0) == AllocParents(g, cfg, buf, Now(), k, j)
      {
        var placed := AllocateNode(g, cfg, g.Src(k)[j], buf);
        if !placed { return false; }
      }
      var placed := AllocateNode(g, cfg, g.nodes[k], buf);
      if !placed { return false; }
      ghost var m := Now();
      assert Prepare(g, cfg, buf, s, k) == Some(m);
      for j := 0 to |g.Src(k)|
        invariant Shape(g, cfg, Now())
        invariant UpdateParents(g, cfg, m, k, 0) == UpdateParents(g, cfg, Now(), k, j)
      {
        var updated := UpdateParent(g, cfg, g.Src(k)[j]);
        if !updated { return false; }
      }
      return true;
    }

    /** ggml_gallocr_alloc_graph_impl on a freshly reset object. */
    method AllocGraph(g: Graph, cfg: Config, ghost maxSizes: seq<nat>, nodeBufs: seq<nat>, leafBufs: seq<nat>)
      returns (ok: bool)
      requires CfgOk(cfg) && g.IdsOk() && |maxSizes| == |cfg.bufts| && Now() == InitState(g, cfg, maxSizes)
      modifies this`pools, hv
      ensures Plan(g, cfg, maxSizes, nodeBufs, leafBufs) == if ok then Some(Now()) else None
    {
      hide Step;
      hide Planner.CountAll;
      hide AllocLeafs;
      assert Shape(g, cfg, Now());
      ok := PlaceLeafs(g, cfg, leafBufs);
      if !ok { return; }
      ok := CountAll(g, cfg, nodeBufs);
      if !ok { return; }
      ghost var s := Now();
      assert Counted(g, cfg, maxSizes, nodeBufs, leafBufs) == Some(s);
      for k := 0 to |g.nodes|
        invariant Shape(g, cfg, Now()) && Before(g, cfg, nodeBufs, s, k) == Some(Now())
      {
        var stepped := RunStep(g, cfg, BufOf(cfg, nodeBufs, k), k);
        if !stepped {
          AbortsForGood(g, cfg, nodeBufs, s, k + 1, |g.nodes|);
          return false;
        }
      }
      return true;
    }

    static lemma AbortsForGood(g: Graph, cfg: Config, nodeBufs: seq<nat>, s: State, k: nat, n: nat)
      requires Shape(g, cfg, s) && k <= n <= |g.nodes| && Before(g, cfg, nodeBufs, s, k).None?
      ensures Before(g, cfg, nodeBufs, s, n).None?
      decreases n
    {
      hide Step;
      if k < n { AbortsForGood(g, cfg, nodeBufs, s, k, n - 1); }
    }
  }
}
