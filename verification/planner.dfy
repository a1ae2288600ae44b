/** The graph allocator of CGGML/ggml-alloc.c as functions on values: which address every tensor is planned on. */
module Planner {
  import opened Wrappers
  import opened Alignment
  import opened TensorAlloc
  import opened TensorGraph

  /** struct hash_node */
  datatype HashNode = HashNode(nChildren: int, nViews: int, bufferId: nat, addr: Address, owned: bool)

  const FreshNode := HashNode(0, 0, 0, Address(0, 0), false)

  /** `size(buft, tensor)` is the backend's allocation size; `align[i]` belongs to the allocator of buffer i. */
  datatype Config = Config(bufts: seq<nat>, align: seq<nat>, size: (nat, nat) -> nat,
                           sameLayout: (nat, nat) -> bool, sameData: nat -> bool)

  datatype State = State(hv: seq<HashNode>, pools: seq<Talloc>)

  /** Buffers of the same type share the allocator of the first of them. */
  function FirstSame(bufts: seq<nat>, i: nat, j: nat): (r: nat)
    requires j <= i < |bufts|
    ensures j <= r <= i
    decreases i - j
  {
    if bufts[j] == bufts[i] then j else FirstSame(bufts, i, j + 1)
  }

  function PoolOf(cfg: Config, buf: nat): (r: nat)
    requires buf < |cfg.bufts|
    ensures r < |cfg.bufts|
  {
    FirstSame(cfg.bufts, buf, 0)
  }

  lemma {:induction false} FirstSameMeaning(bufts: seq<nat>, i: nat, j: nat)
    requires j <= i < |bufts|
    ensures var r := FirstSame(bufts, i, j);
            bufts[r] == bufts[i] && forall k :: j <= k < r ==> bufts[k] != bufts[i]
    decreases i - j
  {
    if bufts[j] != bufts[i] { FirstSameMeaning(bufts, i, j + 1); }
  }

  /** Two buffers share an allocator exactly when they have the same type. */
  lemma SameTypeSamePool(cfg: Config, a: nat, b: nat)
    requires a < |cfg.bufts| && b < |cfg.bufts|
    ensures PoolOf(cfg, a) == PoolOf(cfg, b) <==> cfg.bufts[a] == cfg.bufts[b]
  {
    FirstSameMeaning(cfg.bufts, a, 0);
    FirstSameMeaning(cfg.bufts, b, 0);
  }

  function Request(cfg: Config, buf: nat, t: nat): nat
    requires buf < |cfg.bufts|
  {
    cfg.size(cfg.bufts[buf], t)
  }

  ghost predicate CfgOk(cfg: Config) {
    && 0 < |cfg.bufts| == |cfg.align|
    && (forall i :: 0 <= i < |cfg.align| ==> cfg.align[i] > 0)
    && (forall buf, t :: 0 <= buf < |cfg.bufts| && 0 <= t ==>
          0 < Request(cfg, buf, t) && AlignUp(Request(cfg, buf, t), cfg.align[PoolOf(cfg, buf)]) <= HALF_MAX)
  }

  function Padded(cfg: Config, buf: nat, t: nat): nat
    requires CfgOk(cfg) && buf < |cfg.bufts|
  {
    AlignUp(Request(cfg, buf, t), cfg.align[PoolOf(cfg, buf)])
  }

  ghost predicate Shape(g: Graph, cfg: Config, s: State) {
    && CfgOk(cfg) && g.IdsOk()
    && |s.hv| == |g.tensors|
    && |s.pools| == |cfg.bufts|
    && (forall i :: 0 <= i < |s.pools| ==> s.pools[i].alignment == cfg.align[i])
    && (forall t :: 0 <= t < |s.hv| ==> s.hv[t].bufferId < |cfg.bufts|)
    && (forall t :: 0 <= t < |s.hv| && s.hv[t].owned ==>
          s.hv[t].addr.chunk < |s.pools[PoolOf(cfg, s.hv[t].bufferId)].chunks|)
  }

  // ---------------------------------------------------------------- reuse of a parent

  datatype Reuse = NoReuse | Parent(p: nat) | ViewParent(p: nat)

  /** What allocate_node does with source slot i: reuse it, or go on to the next one. */
  function TryParent(g: Graph, cfg: Config, hv: seq<HashNode>, t: nat, p: nat): Reuse
    requires g.IdsOk() && |hv| == |g.tensors| && t < |hv| && p < |hv|
  {
    var tp := g.tensors[p];
    if !hv[p].owned then NoReuse
    else if tp.output || (tp.viewSrc.Some? && g.tensors[tp.viewSrc.value].output) then NoReuse
    else if !cfg.sameLayout(t, p) then NoReuse
    else if hv[p].nChildren != 1 || hv[p].nViews != 0 then NoReuse
    else if tp.viewSrc.None? then Parent(p)
    else
      var r := tp.viewSrc.value;
      if hv[r].nViews == 1 && hv[r].nChildren == 0 && cfg.sameData(p) then ViewParent(p) else NoReuse
  }

  function FindReuse(g: Graph, cfg: Config, hv: seq<HashNode>, t: nat, i: nat): (r: Reuse)
    requires g.IdsOk() && |hv| == |g.tensors| && t < |hv| && i <= |g.tensors[t].src|
    ensures !r.NoReuse? ==>
            exists j :: i <= j < |g.tensors[t].src| && g.tensors[t].src[j] == r.p && TryParent(g, cfg, hv, t, r.p) == r
    decreases |g.tensors[t].src| - i
  {
    if i == |g.tensors[t].src| then NoReuse
    else
      var r := TryParent(g, cfg, hv, t, g.tensors[t].src[i]);
      if r.NoReuse? then FindReuse(g, cfg, hv, t, i + 1) else r
  }

  /** free_extra_space: give back the tail of the parent's range that the smaller node does not need. */
  function FreeExtra(cfg: Config, hv: seq<HashNode>, pools: seq<Talloc>, node: nat,
                     parent: nat): (r: Option<seq<Talloc>>)
    requires CfgOk(cfg) && |pools| == |cfg.bufts| && node < |hv| && parent < |hv|
    requires hv[node].bufferId < |cfg.bufts| && hv[parent].bufferId < |cfg.bufts|
    requires forall i :: 0 <= i < |pools| ==> pools[i].alignment == cfg.align[i]
    requires hv[parent].addr.chunk < |pools[PoolOf(cfg, hv[parent].bufferId)].chunks|
    ensures r.Some? ==> |r.value| == |pools|
    ensures r.Some? ==> forall i :: 0 <= i < |pools| ==>
              r.value[i].alignment == pools[i].alignment && |r.value[i].chunks| == |pools[i].chunks|
  {
    var i := PoolOf(cfg, hv[parent].bufferId);
    var parentSize := Request(cfg, hv[parent].bufferId, parent);
    var nodeSize := Request(cfg, hv[node].bufferId, node);
    if parentSize < nodeSize then None
    else
      var ps, ns := AlignUp(parentSize, cfg.align[i]), AlignUp(nodeSize, cfg.align[i]);
      if ps > ns then
        var u :- FreeBytes(pools[i], Address(hv[parent].addr.chunk, hv[parent].addr.offset + ns), ps - ns);
        Some(pools[i := u])
      else Some(pools)
  }

  /** The node moves into its parent's range; the parent gives up ownership without being freed. */
  function TakeOver(g: Graph, cfg: Config, s: State, t: nat, p: nat): (r: Option<State>)
    requires Shape(g, cfg, s) && t < |s.hv| && p < |s.hv| && t != p && s.hv[p].owned
    ensures r.Some? ==> Shape(g, cfg, r.value)
  {
    var n := s.hv[t].(owned := true, bufferId := s.hv[p].bufferId, addr := s.hv[p].addr);
    var hv := s.hv[p := s.hv[p].(owned := false)][t := n];
    var pools :- FreeExtra(cfg, hv, s.pools, t, p);
    Some(State(hv, pools))
  }

  /** The same for a parent that is a view of `root` (never reached, see ViewsAreNeverReused). */
  function TakeOverView(g: Graph, cfg: Config, s: State, t: nat, p: nat, root: nat): (r: Option<State>)
    requires Shape(g, cfg, s) && t < |s.hv| && p < |s.hv| && root < |s.hv| && t != p && t != root && s.hv[p].owned
             && s.hv[root].owned
    ensures r.Some? ==> Shape(g, cfg, r.value)
  {
    var n := s.hv[t].(owned := true, bufferId := s.hv[p].bufferId, addr := s.hv[p].addr);
    var hv0 := s.hv[p := s.hv[p].(owned := false)];
    var hv := hv0[root := hv0[root].(owned := false)][t := n];
    var pools :- FreeExtra(cfg, hv, s.pools, t, root);
    Some(State(hv, pools))
  }

  function AllocFresh(g: Graph, cfg: Config, s: State, t: nat, buf: nat): (r: Option<State>)
    requires Shape(g, cfg, s) && t < |s.hv| && buf < |cfg.bufts|
    ensures r.Some? ==> Shape(g, cfg, r.value)
  {
    var i := PoolOf(cfg, buf);
    var (u, addr) :- Alloc(s.pools[i], Request(cfg, buf, t));
    Some(State(s.hv[t := s.hv[t].(owned := true, bufferId := buf, addr := addr)], s.pools[i := u]))
  }

  /** ggml_gallocr_allocate_node; None is an abort (a failed assertion, or an allocator that gave up). */
  function AllocateNode(g: Graph, cfg: Config, s: State, t: nat, buf: nat): (r: Option<State>)
    requires Shape(g, cfg, s) && t < |s.hv| && buf < |cfg.bufts|
    ensures r.Some? ==> Shape(g, cfg, r.value)
  {
    if g.tensors[t].external || s.hv[t].owned || g.IsView(t) then Some(s)
    else if !CanInplace(g.tensors[t].op) then AllocFresh(g, cfg, s, t, buf)
    else
      match FindReuse(g, cfg, s.hv, t, 0)
      case NoReuse => AllocFresh(g, cfg, s, t, buf)
      case Parent(p) => TakeOver(g, cfg, s, t, p)
      case ViewParent(p) =>
        var root := g.tensors[p].viewSrc.value;
        if root != t && s.hv[root].owned then TakeOverView(g, cfg, s, t, p, root) else None
  }

  /** ggml_gallocr_free_node: outputs are never freed. */
  function FreeNode(g: Graph, cfg: Config, s: State, t: nat): (r: Option<State>)
    requires Shape(g, cfg, s) && t < |s.hv| && s.hv[t].owned
    ensures r.Some? ==> Shape(g, cfg, r.value)
  {
    if g.tensors[t].output then Some(s)
    else
      var h := s.hv[t];
      var i := PoolOf(cfg, h.bufferId);
      var u :- FreeBytes(s.pools[i], h.addr, Request(cfg, h.bufferId, t));
      Some(State(s.hv[t := h.(owned := false)], s.pools[i := u]))
  }

  // ---------------------------------------------------------------- the three loops of alloc_graph_impl

  function AddChildren(hv: seq<HashNode>, t: nat, d: int): seq<HashNode>
    requires t < |hv|
  {
    hv[t := hv[t].(nChildren := hv[t].nChildren + d)]
  }

  function AddViews(hv: seq<HashNode>, t: nat, d: int): seq<HashNode>
    requires t < |hv|
  {
    hv[t := hv[t].(nViews := hv[t].nViews + d)]
  }

  function BufOf(cfg: Config, bufs: seq<nat>, i: nat): (b: nat)
    requires 0 < |cfg.bufts|
    ensures b < |cfg.bufts|
  {
    if i < |bufs| && bufs[i] < |cfg.bufts| then bufs[i] else 0
  }

  function AllocLeafs(g: Graph, cfg: Config, leafBufs: seq<nat>, s: State, i: nat): (r: Option<State>)
    requires Shape(g, cfg, s) && i <= |g.leafs|
    ensures r.Some? ==> Shape(g, cfg, r.value)
    decreases |g.leafs| - i
  {
    if i == |g.leafs| then Some(s)
    else
      var s' :- AllocateNode(g, cfg, s, g.leafs[i], BufOf(cfg, leafBufs, i));
      AllocLeafs(g, cfg, leafBufs, s', i + 1)
  }

  function CountSources(g: Graph, cfg: Config, buf: nat, s: State, k: nat, j: nat): (r: Option<State>)
    requires Shape(g, cfg, s) && k < |g.nodes| && j <= |g.Src(k)| && buf < |cfg.bufts|
    ensures r.Some? ==> Shape(g, cfg, r.value)
    decreases |g.Src(k)| - j
  {
    if j == |g.Src(k)| then Some(s)
    else
      var src := g.Src(k)[j];
      var s1 := s.(hv := AddChildren(s.hv, src, 1));
      var s2 :- if g.tensors[src].input then AllocateNode(g, cfg, s1, src, buf) else Some(s1);
      CountSources(g, cfg, buf, s2, k, j + 1)
  }

  function CountNode(g: Graph, cfg: Config, buf: nat, s: State, k: nat): (r: Option<State>)
    requires Shape(g, cfg, s) && k < |g.nodes| && buf < |cfg.bufts|
    ensures r.Some? ==> Shape(g, cfg, r.value)
  {
    var t := g.nodes[k];
    var s1 := if g.IsView(t) && g.tensors[t].op != NONE then s.(hv := AddViews(s.hv, g.tensors[t].viewSrc.value, 1))
      else s;
    var s2 :- if g.tensors[t].input then AllocateNode(g, cfg, s1, t, buf) else Some(s1);
    CountSources(g, cfg, buf, s2, k, 0)
  }

  function CountAll(g: Graph, cfg: Config, nodeBufs: seq<nat>, s: State, k: nat): (r: Option<State>)
    requires Shape(g, cfg, s) && k <= |g.nodes|
    ensures r.Some? ==> Shape(g, cfg, r.value)
    decreases |g.nodes| - k
  {
    if k == |g.nodes| then Some(s)
    else
      var s' :- CountNode(g, cfg, BufOf(cfg, nodeBufs, k), s, k);
      CountAll(g, cfg, nodeBufs, s', k + 1)
  }

  function AllocParents(g: Graph, cfg: Config, buf: nat, s: State, k: nat, j: nat): (r: Option<State>)
    requires Shape(g, cfg, s) && k < |g.nodes| && j <= |g.Src(k)| && buf < |cfg.bufts|
    ensures r.Some? ==> Shape(g, cfg, r.value)
    decreases |g.Src(k)| - j
  {
    if j == |g.Src(k)| then Some(s)
    else
      var s' :- AllocateNode(g, cfg, s, g.Src(k)[j], buf);
      AllocParents(g, cfg, buf, s', k, j + 1)
  }

  /** One source of an executed node has been read: count down, and free what nobody needs any more. */
  function UpdateParent(g: Graph, cfg: Config, s: State, p: nat): (r: Option<State>)
    requires Shape(g, cfg, s) && p < |s.hv|
    ensures r.Some? ==> Shape(g, cfg, r.value)
  {
    var s1 := s.(hv := AddChildren(s.hv, p, -1));
    if s1.hv[p].nChildren == 0 && s1.hv[p].nViews == 0 then
      if g.IsView(p) then
        var root := g.tensors[p].viewSrc.value;
        var s2 := s1.(hv := AddViews(s1.hv, root, -1));
        if s2.hv[root].nViews == 0 && s2.hv[root].nChildren == 0 && s2.hv[root].owned then FreeNode(g, cfg, s2, root)
        else Some(s2)
      else if s1.hv[p].owned then FreeNode(g, cfg, s1, p)
      else Some(s1)
    else Some(s1)
  }

  function UpdateParents(g: Graph, cfg: Config, s: State, k: nat, j: nat): (r: Option<State>)
    requires Shape(g, cfg, s) && k < |g.nodes| && j <= |g.Src(k)|
    ensures r.Some? ==> Shape(g, cfg, r.value)
    decreases |g.Src(k)| - j
  {
    if j == |g.Src(k)| then Some(s)
    else
      var s' :- UpdateParent(g, cfg, s, g.Src(k)[j]);
      UpdateParents(g, cfg, s', k, j + 1)
  }

  /** The state in which node k executes: its sources and itself are placed, nothing has been freed for it yet. */
  function Prepare(g: Graph, cfg: Config, buf: nat, s: State, k: nat): (r: Option<State>)
    requires Shape(g, cfg, s) && k < |g.nodes| && buf < |cfg.bufts|
    ensures r.Some? ==> Shape(g, cfg, r.value)
  {
    var s' :- AllocParents(g, cfg, buf, s, k, 0);
    AllocateNode(g, cfg, s', g.nodes[k], buf)
  }

  function Step(g: Graph, cfg: Config, buf: nat, s: State, k: nat): (r: Option<State>)
    requires Shape(g, cfg, s) && k < |g.nodes| && buf < |cfg.bufts|
    ensures r.Some? ==> Shape(g, cfg, r.value)
  {
    var s' :- Prepare(g, cfg, buf, s, k);
    UpdateParents(g, cfg, s', k, 0)
  }

  /** State before step k of the allocation loop, starting from s. */
  function Before(g: Graph, cfg: Config, nodeBufs: seq<nat>, s: State, k: nat): (r: Option<State>)
    requires Shape(g, cfg, s) && k <= |g.nodes|
    ensures r.Some? ==> Shape(g, cfg, r.value)
  {
    if k == 0 then Some(s)
    else
      var s' :- Before(g, cfg, nodeBufs, s, k - 1);
      Step(g, cfg, BufOf(cfg, nodeBufs, k - 1), s', k - 1)
  }

  function InitState(g: Graph, cfg: Config, maxSizes: seq<nat>): State
    requires |maxSizes| == |cfg.bufts| == |cfg.align|
  {
    State(seq(|g.tensors|, _ => FreshNode),
          seq(|cfg.bufts|, i requires 0 <= i < |cfg.bufts| => Talloc(cfg.align[i],
            if maxSizes[i] < HALF_MAX then maxSizes[i] else HALF_MAX, [])))
  }

  /** State after the leaf loop and the counting loop. */
  function Counted(g: Graph, cfg: Config, maxSizes: seq<nat>, nodeBufs: seq<nat>,
                   leafBufs: seq<nat>): (r: Option<State>)
    requires CfgOk(cfg) && g.IdsOk() && |maxSizes| == |cfg.bufts|
    ensures r.Some? ==> Shape(g, cfg, r.value)
  {
    var s :- AllocLeafs(g, cfg, leafBufs, InitState(g, cfg, maxSizes), 0);
    CountAll(g, cfg, nodeBufs, s, 0)
  }

  /** ggml_gallocr_alloc_graph_impl on reset allocators: the hash values and allocators it ends with. */
  function Plan(g: Graph, cfg: Config, maxSizes: seq<nat>, nodeBufs: seq<nat>, leafBufs: seq<nat>): (r: Option<State>)
    requires CfgOk(cfg) && g.IdsOk() && |maxSizes| == |cfg.bufts|
    ensures r.Some? ==> Shape(g, cfg, r.value)
  {
    var s :- Counted(g, cfg, maxSizes, nodeBufs, leafBufs);
    Before(g, cfg, nodeBufs, s, |g.nodes|)
  }
}
