/** Which buffer every tensor is planned in, and which source a node runs in place on, told by the graph and the lists
    of buffer ids alone. */
module PlanBuffers {
  import opened Wrappers
  import opened TensorAlloc
  import opened TensorGraph
  import opened Planner
  import opened PlannerMemory
  import opened PlannerCounts
  import opened PlannerOwners
  import opened PlannerSafety
  import opened PlanSafety

  /** The caller names a buffer for every tensor of the list. */
  ghost predicate FullList(cfg: Config, bufs: seq<nat>, list: seq<nat>) {
    |bufs| == |list| && forall i :: 0 <= i < |bufs| ==> bufs[i] < |cfg.bufts|
  }

  // ---------------------------------------------------------------- one placement

  /** A tensor that is placed gets the buffer asked for, or that of the parent it takes over. */
  lemma PlacedBuffer(g: Graph, cfg: Config, s: State, t: nat, buf: nat)
    requires PlanInv(g, cfg, s) && t < |s.hv| && buf < |cfg.bufts| && Storable(g, t) && !s.hv[t].owned
    requires AllocateNode(g, cfg, s, t, buf).Some?
    ensures var s', taken := AllocateNode(g, cfg, s, t, buf).value, Taken(g, cfg, s, t);
            && (taken.None? ==> s'.hv[t].bufferId == buf)
            && (taken.Some? ==> taken.value < |s.hv| && s'.hv[t].bufferId == s.hv[taken.value].bufferId
                                && s'.hv[t].addr == s.hv[taken.value].addr)
  {
    hide MemInv;
    hide Alloc;
    hide FreeExtra;
    ViewsAreNeverReused(g, cfg, s, t);
  }

  lemma PlacedOutOfPlace(g: Graph, cfg: Config, s: State, t: nat, buf: nat)
    requires PlanInv(g, cfg, s) && t < |s.hv| && buf < |cfg.bufts| && !CanInplace(g.tensors[t].op)
    requires AllocateNode(g, cfg, s, t, buf).Some?
    ensures var s' := AllocateNode(g, cfg, s, t, buf).value;
            && PlanInv(g, cfg, s') && |s'.hv| == |s.hv|
            && (forall u :: 0 <= u < |s.hv| && (u != t || s.hv[t].owned || !Storable(g, t)) ==> s'.hv[u] == s.hv[u])
            && (Storable(g, t) ==> s'.hv[t].owned && (!s.hv[t].owned ==> s'.hv[t].bufferId == buf))
  {
    AllocateNodeKeepsInv(g, cfg, s, t, buf);
    hide MemInv;
    hide Alloc;
  }

  // ---------------------------------------------------------------- leafs

  /** Owned tensors keep their hash values. */
  ghost predicate OwnersStay(hv: seq<HashNode>, hv': seq<HashNode>) {
    |hv'| == |hv| && forall u :: 0 <= u < |hv| && hv[u].owned ==>
      hv'[u].owned && hv'[u].bufferId == hv[u].bufferId && hv'[u].addr == hv[u].addr
  }

  /** Leaf k is placed by the planner and not listed between i and k. */
  ghost predicate FirstPlace(g: Graph, i: int, k: nat)
    requires g.IdsOk() && 0 <= i
  {
    i <= k < |g.leafs| && Storable(g, g.leafs[k]) && forall j :: i <= j < k ==> g.leafs[j] != g.leafs[k]
  }

  /** The leaf loop from i on: owners keep their places, and a leaf is placed in the buffer named for it. */
  lemma {:induction false} LeafLoop(g: Graph, cfg: Config, leafBufs: seq<nat>, s: State, i: nat, k: nat)
    requires Ordered(g) && PlanInv(g, cfg, s) && FullList(cfg, leafBufs, g.leafs) && i <= |g.leafs|
    requires AllocLeafs(g, cfg, leafBufs, s, i).Some?
    ensures PlanInv(g, cfg, AllocLeafs(g, cfg, leafBufs, s, i).value)
    ensures OwnersStay(s.hv, AllocLeafs(g, cfg, leafBufs, s, i).value.hv)
    ensures FirstPlace(g, i, k) && !s.hv[g.leafs[k]].owned ==>
              AllocLeafs(g, cfg, leafBufs, s, i).value.hv[g.leafs[k]].bufferId == leafBufs[k]
    decreases |g.leafs| - i
  {
    hide PlanInv;
    hide Readable;
    hide Earlier;
    hide Storable;
    if i < |g.leafs| {
      var t := g.leafs[i];
      PlanInvShape(g, cfg, s);
      hide Shape;
      LeafRound(g, cfg, leafBufs, s, i);
      hide AllocateNode;
      LeafLoop(g, cfg, leafBufs, AllocateNode(g, cfg, s, t, leafBufs[i]).value, i + 1, k);
    }
  }

  lemma PlanInvShape(g: Graph, cfg: Config, s: State)
    requires PlanInv(g, cfg, s)
    ensures Shape(g, cfg, s) && |s.hv| == |g.tensors| && g.IdsOk()
  {
    hide MemInv;
  }

  /** Round i of the leaf loop. */
  lemma LeafRound(g: Graph, cfg: Config, leafBufs: seq<nat>, s: State, i: nat)
    requires Ordered(g) && PlanInv(g, cfg, s) && FullList(cfg, leafBufs, g.leafs) && i < |g.leafs|
    requires AllocLeafs(g, cfg, leafBufs, s, i).Some?
    ensures AllocateNode(g, cfg, s, g.leafs[i], leafBufs[i]).Some?
    ensures var s', t := AllocateNode(g, cfg, s, g.leafs[i], leafBufs[i]).value, g.leafs[i];
            && AllocLeafs(g, cfg, leafBufs, s, i) == AllocLeafs(g, cfg, leafBufs, s', i + 1)
            && PlanInv(g, cfg, s') && OwnersStay(s.hv, s'.hv)
            && (forall u :: 0 <= u < |s.hv| && u != t ==> s'.hv[u] == s.hv[u])
            && (Storable(g, t) && !s.hv[t].owned ==> s'.hv[t].owned && s'.hv[t].bufferId == leafBufs[i])
  {
    hide MemInv;
    hide AllocateNode;
    hide Readable;
    PlacedOutOfPlace(g, cfg, s, g.leafs[i], leafBufs[i]);
  }

  // ---------------------------------------------------------------- graph inputs

  /** Node k is t or reads t. */
  ghost predicate Meets(g: Graph, k: int, t: nat)
    requires g.IdsOk() && 0 <= k < |g.nodes|
  {
    g.nodes[k] == t || t in g.Src(k)
  }

  /** Only t changes, and only by being placed in buffer buf if it was not placed before. */
  ghost predicate PlacesAtMost(g: Graph, hv: seq<HashNode>, hv': seq<HashNode>, ts: seq<nat>, buf: nat)
    requires |hv| == |g.tensors|
  {
    && OwnersStay(hv, hv')
    && (forall u: nat :: u < |hv| && (u !in ts || !Storable(g, u) || !g.tensors[u].input) ==>
        hv'[u].owned == hv[u].owned)
    && (forall u: nat :: u < |hv| && u in ts && Storable(g, u) && g.tensors[u].input && !hv[u].owned ==>
          hv'[u].owned && hv'[u].bufferId == buf)
  }

  lemma MaybePlaced(g: Graph, cfg: Config, s: State, t: nat, buf: nat)
    requires Ordered(g) && PlanInv(g, cfg, s) && t < |s.hv| && buf < |cfg.bufts|
    requires g.tensors[t].input ==> AllocateNode(g, cfg, s, t, buf).Some?
    ensures var s' := if g.tensors[t].input then AllocateNode(g, cfg, s, t, buf).value else s;
            PlanInv(g, cfg, s') && PlacesAtMost(g, s.hv, s'.hv, [t], buf)
  {
    hide MemInv;
    hide AllocateNode;
    hide Readable;
    if g.tensors[t].input { PlacedOutOfPlace(g, cfg, s, t, buf); }
  }

  lemma PlacesCompose(g: Graph, a: seq<HashNode>, b: seq<HashNode>, c: seq<HashNode>, ts: seq<nat>, us: seq<nat>,
                      buf: nat)
    requires |a| == |g.tensors| && PlacesAtMost(g, a, b, ts, buf) && PlacesAtMost(g, b, c, us, buf)
    ensures PlacesAtMost(g, a, c, ts + us, buf)
  {
    hide Storable;
    forall u: nat | u < |a| ensures u in ts + us <==> u in ts || u in us {}
    assert OwnersStay(a, c);
    forall u: nat | u < |a| && (u !in ts + us || !Storable(g, u) || !g.tensors[u].input)
      ensures c[u].owned == a[u].owned
    {
      assert b[u].owned == a[u].owned;
    }
    forall u: nat | u < |a| && u in ts + us && Storable(g, u) && g.tensors[u].input && !a[u].owned
      ensures c[u].owned && c[u].bufferId == buf
    {
      if u in ts { assert b[u].owned && b[u].bufferId == buf; } else { assert !b[u].owned && u in us; }
    }
  }

  /** Counting changes no placement. */
  lemma CountingPlacesNothing(g: Graph, hv: seq<HashNode>, hv': seq<HashNode>, buf: nat)
    requires |hv'| == |hv| == |g.tensors|
    requires forall u :: 0 <= u < |hv| ==>
               hv'[u].owned == hv[u].owned && hv'[u].bufferId == hv[u].bufferId && hv'[u].addr == hv[u].addr
    ensures PlacesAtMost(g, hv, hv', [], buf)
  {
  }

  /** The source loop of the counting pass at node k. */
  lemma {:induction false} SourceLoop(g: Graph, cfg: Config, buf: nat, s: State, k: nat, j: nat)
    requires Ordered(g) && PlanInv(g, cfg, s) && k < |g.nodes| && j <= |g.Src(k)| && buf < |cfg.bufts|
    requires CountSources(g, cfg, buf, s, k, j).Some?
    ensures var s' := CountSources(g, cfg, buf, s, k, j).value;
            PlanInv(g, cfg, s') && PlacesAtMost(g, s.hv, s'.hv, g.Src(k)[j..], buf)
    decreases |g.Src(k)| - j
  {
    hide PlacesAtMost;
    hide AllocateNode;
    hide MemInv;
    hide Readable;
    if j == |g.Src(k)| {
      CountingPlacesNothing(g, s.hv, s.hv, buf);
      assert g.Src(k)[j..] == [];
    } else {
      var src := g.Src(k)[j];
      var s1 := s.(hv := AddChildren(s.hv, src, 1));
      CountersKeepInv(g, cfg, s, s1.hv);
      CountingPlacesNothing(g, s.hv, s1.hv, buf);
      MaybePlaced(g, cfg, s1, src, buf);
      var s2 := if g.tensors[src].input then AllocateNode(g, cfg, s1, src, buf).value else s1;
      SourceLoop(g, cfg, buf, s2, k, j + 1);
      var s' := CountSources(g, cfg, buf, s, k, j).value;
      PlacesCompose(g, s.hv, s1.hv, s2.hv, [], [src], buf);
      PlacesCompose(g, s.hv, s2.hv, s'.hv, [] + [src], g.Src(k)[j + 1..], buf);
      assert [] + [src] + g.Src(k)[j + 1..] == g.Src(k)[j..];
    }
  }

  /** Node k of the counting pass. */
  lemma CountRound(g: Graph, cfg: Config, buf: nat, s: State, k: nat)
    requires Ordered(g) && PlanInv(g, cfg, s) && k < |g.nodes| && buf < |cfg.bufts|
    requires CountNode(g, cfg, buf, s, k).Some?
    ensures var s' := CountNode(g, cfg, buf, s, k).value;
            PlanInv(g, cfg, s') && PlacesAtMost(g, s.hv, s'.hv, [g.nodes[k]] + g.Src(k), buf)
  {
    hide PlacesAtMost;
    hide AllocateNode;
    hide CountSources;
    hide MemInv;
    hide Readable;
    var t := g.nodes[k];
    var s1 := if g.IsView(t) && g.tensors[t].op != NONE then s.(hv := AddViews(s.hv, g.tensors[t].viewSrc.value, 1))
      else s;
    CountersKeepInv(g, cfg, s, s1.hv);
    CountingPlacesNothing(g, s.hv, s1.hv, buf);
    MaybePlaced(g, cfg, s1, t, buf);
    var s2 := if g.tensors[t].input then AllocateNode(g, cfg, s1, t, buf).value else s1;
    SourceLoop(g, cfg, buf, s2, k, 0);
    var s' := CountNode(g, cfg, buf, s, k).value;
    PlacesCompose(g, s.hv, s1.hv, s2.hv, [], [t], buf);
    assert g.Src(k)[0..] == g.Src(k);
    PlacesCompose(g, s.hv, s2.hv, s'.hv, [] + [t], g.Src(k), buf);
    assert [] + [t] + g.Src(k) == [t] + g.Src(k);
  }

  lemma MeetsIsListed(g: Graph, k: nat, t: nat)
    requires g.IdsOk() && k < |g.nodes|
    ensures Meets(g, k, t) <==> t in [g.nodes[k]] + g.Src(k)
  {
  }

  /** Node n is the first from k on that is t or reads it. */
  ghost predicate MeetsFirst(g: Graph, k: int, n: int, t: nat)
    requires g.IdsOk() && 0 <= k <= n < |g.nodes|
  {
    Meets(g, n, t) && forall i :: k <= i < n ==> !Meets(g, i, t)
  }

  /** The counting pass from node k on: a graph input is placed in the buffer of the first node that is it or reads
      it. */
  lemma {:induction false} CountLoop(g: Graph, cfg: Config, nodeBufs: seq<nat>, s: State, k: nat, n: nat, t: nat)
    requires Ordered(g) && PlanInv(g, cfg, s) && FullList(cfg, nodeBufs, g.nodes) && k <= n <= |g.nodes| && t < |s.hv|
    requires CountAll(g, cfg, nodeBufs, s, k).Some?
    ensures var s' := CountAll(g, cfg, nodeBufs, s, k).value;
            && PlanInv(g, cfg, s') && OwnersStay(s.hv, s'.hv)
            && (n < |g.nodes| && Storable(g, t) && g.tensors[t].input && !s.hv[t].owned && MeetsFirst(g, k, n, t) ==>
                  s'.hv[t].bufferId == nodeBufs[n])
    decreases |g.nodes| - k
  {
    hide CountNode;
    hide MemInv;
    hide Readable;
    hide Meets;
    if k < |g.nodes| {
      assert BufOf(cfg, nodeBufs, k) == nodeBufs[k];
      var s' := CountNode(g, cfg, nodeBufs[k], s, k).value;
      CountRound(g, cfg, nodeBufs[k], s, k);
      MeetsIsListed(g, k, t);
      CountLoop(g, cfg, nodeBufs, s', k + 1, if n == k then k + 1 else n, t);
    }
  }

  // ---------------------------------------------------------------- nodes that run in place

  /** Node k is the only one left to read p, reads it once, and neither p nor a view of it is wanted otherwise. */
  ghost predicate LastReader(g: Graph, k: nat, p: nat)
    requires g.IdsOk() && k < |g.nodes|
  {
    && Storable(g, p) && !g.tensors[p].output && UsesFrom(g, p, k) == 1
    && forall v :: v in ViewsOf(g, p) ==> UsesFrom(g, v, 0) > 0 && UsesFrom(g, v, k) == 0
  }

  /** Node k may run in place on its source j. */
  ghost predicate MayReuse(g: Graph, cfg: Config, k: nat, j: int)
    requires g.IdsOk() && k < |g.nodes| && 0 <= j < |g.Src(k)|
  {
    CanInplace(g.tensors[g.nodes[k]].op) && cfg.sameLayout(g.nodes[k], g.Src(k)[j]) && LastReader(g, k, g.Src(k)[j])
  }

  /** Source j is the first that node k may run in place on. */
  ghost predicate FirstReuse(g: Graph, cfg: Config, k: nat, j: int)
    requires g.IdsOk() && k < |g.nodes|
  {
    0 <= j < |g.Src(k)| && MayReuse(g, cfg, k, j) && forall i :: 0 <= i < j ==> !MayReuse(g, cfg, k, i)
  }

  /** Every operation that may run in place; the others may not. */
  lemma InplaceOperations(op: Op)
    ensures CanInplace(op) <==>
              op in {FILL, SCALE, DIAG_MASK_ZERO, DIAG_MASK_INF, ADD, ADD_ID, ADD1, SUB, MUL, DIV, SQR, SQRT, LOG,
                UNARY, ROPE,
                     ROPE_BACK, SILU_BACK, RMS_NORM, RMS_NORM_BACK, SOFT_MAX, SOFT_MAX_BACK}
  {
  }

  /** In the state before step k the counters say exactly who is a last reader. */
  lemma CountersSayLastReader(g: Graph, cfg: Config, s: State, k: nat, j: nat)
    requires LoopInv(g, cfg, s, k) && k < |g.nodes| && j < |g.Src(k)| && Storable(g, g.nodes[k])
    requires CanInplace(g.tensors[g.nodes[k]].op)
    ensures var p := g.Src(k)[j];
            TryParent(g, cfg, s.hv, g.nodes[k], p) == if MayReuse(g, cfg, k, j) then Parent(p) else NoReuse
  {
    hide MemInv;
    hide Readable;
    hide NeededBefore;
    var p := g.Src(k)[j];
    if g.IsView(p) {
      assert !s.hv[p].owned;
    } else {
      SourceIsOwned(g, cfg, s, k, j);
      NoViewsExactly(g, s.hv, p, k);
    }
  }

  lemma SourceIsOwned(g: Graph, cfg: Config, s: State, k: nat, j: nat)
    requires LoopInv(g, cfg, s, k) && k < |g.nodes| && j < |g.Src(k)| && !g.IsView(g.Src(k)[j])
    ensures s.hv[g.Src(k)[j]].owned <==> Storable(g, g.Src(k)[j])
  {
    hide MemInv;
    SourceIsNeeded(g, k, j);
  }

  lemma NoViewsExactly(g: Graph, hv: seq<HashNode>, p: nat, k: nat)
    requires g.IdsOk() && |hv| == |g.tensors| && p < |hv| && k <= |g.nodes| && CountsBefore(g, hv, k)
             && ViewCountsOk(g, hv)
    ensures hv[p].nViews == 0 <==> forall v :: v in ViewsOf(g, p) ==> UsesFrom(g, v, 0) > 0 && UsesFrom(g, v, k) == 0
  {
    assert hv[p].nViews == |Active(g, hv, p)|;
    if hv[p].nViews == 0 {
      forall v | v in ViewsOf(g, p) ensures UsesFrom(g, v, 0) > 0 && UsesFrom(g, v, k) == 0 {
        assert v !in Active(g, hv, p);
      }
    }
    if forall v :: v in ViewsOf(g, p) ==> UsesFrom(g, v, 0) > 0 && UsesFrom(g, v, k) == 0 {
      assert Active(g, hv, p) == {};
    }
  }

  /** The search from source i on finds the first source that may be reused. */
  lemma {:induction false} SearchFindsFirst(g: Graph, cfg: Config, s: State, k: nat, i: nat, j: nat)
    requires LoopInv(g, cfg, s, k) && k < |g.nodes| && Storable(g, g.nodes[k]) && CanInplace(g.tensors[g.nodes[k]].op)
    requires i <= j <= |g.Src(k)| && forall x :: i <= x < j ==> !MayReuse(g, cfg, k, x)
    requires j < |g.Src(k)| ==> MayReuse(g, cfg, k, j)
    ensures FindReuse(g, cfg, s.hv, g.nodes[k], i) == if j < |g.Src(k)| then Parent(g.Src(k)[j]) else NoReuse
    decreases |g.Src(k)| - i
  {
    hide TryParent;
    hide MayReuse;
    hide PlanInv;
    hide CountsBefore;
    hide ViewCountsOk;
    hide OwnedExactly;
    hide Readable;
    if i < |g.Src(k)| {
      CountersSayLastReader(g, cfg, s, k, i);
      if i < j { SearchFindsFirst(g, cfg, s, k, i + 1, j); }
    }
  }

  /** A node that its own step places takes over its first reusable source, and nobody when it has none. */
  lemma TakesFirstReusable(g: Graph, cfg: Config, s: State, k: nat)
    requires LoopInv(g, cfg, s, k) && k < |g.nodes| && Storable(g, g.nodes[k]) && !s.hv[g.nodes[k]].owned
    ensures forall j :: FirstReuse(g, cfg, k, j) ==> Taken(g, cfg, s, g.nodes[k]) == Some(g.Src(k)[j])
    ensures (forall j :: 0 <= j < |g.Src(k)| ==> !MayReuse(g, cfg, k, j)) ==> Taken(g, cfg, s, g.nodes[k]) == None
  {
    hide PlanInv;
    hide CountsBefore;
    hide ViewCountsOk;
    hide OwnedExactly;
    hide Readable;
    hide LastReader;
    PlanInvShape(g, cfg, s);
    forall j | FirstReuse(g, cfg, k, j) ensures Taken(g, cfg, s, g.nodes[k]) == Some(g.Src(k)[j]) {
      SearchFindsFirst(g, cfg, s, k, 0, j);
    }
    if forall j :: 0 <= j < |g.Src(k)| ==> !MayReuse(g, cfg, k, j) {
      if CanInplace(g.tensors[g.nodes[k]].op) { SearchFindsFirst(g, cfg, s, k, 0, |g.Src(k)|); }
    }
  }

  // ---------------------------------------------------------------- whole plans

  /** The tensors have their final places before the first step when they are leafs or graph inputs. */
  lemma CountedPlacesAreFinal(g: Graph, cfg: Config, maxSizes: seq<nat>, nodeBufs: seq<nat>, leafBufs: seq<nat>, t: nat)
    requires CfgOk(cfg) && Ordered(g) && |maxSizes| == |cfg.bufts| && Plan(g, cfg, maxSizes, nodeBufs, leafBufs).Some?
    requires t < |g.tensors| && Known(g, t, 0)
    ensures Counted(g, cfg, maxSizes, nodeBufs, leafBufs).Some?
    ensures Plan(g, cfg, maxSizes, nodeBufs, leafBufs).value.hv[t].bufferId
            == Counted(g, cfg, maxSizes, nodeBufs, leafBufs).value.hv[t].bufferId
  {
    hide Counted;
    hide Before;
    hide Known;
    hide Readable;
    hide LoopInv;
    StartOfLoop(g, cfg, maxSizes, nodeBufs, leafBufs);
    var s0 := Counted(g, cfg, maxSizes, nodeBufs, leafBufs).value;
    PlacesAreFinal(g, cfg, nodeBufs, s0, 0, |g.nodes|);
    NothingBefore(g, cfg, nodeBufs, s0);
  }

  lemma NothingBefore(g: Graph, cfg: Config, nodeBufs: seq<nat>, s: State)
    requires Shape(g, cfg, s)
    ensures Before(g, cfg, nodeBufs, s, 0) == Some(s)
  {
  }

  /** In a finished plan every leaf is in the buffer named for it (for its first mention, should it be listed twice). */
  lemma LeafsInTheirBuffers(g: Graph, cfg: Config, maxSizes: seq<nat>, nodeBufs: seq<nat>, leafBufs: seq<nat>, k: nat)
    requires CfgOk(cfg) && Ordered(g) && |maxSizes| == |cfg.bufts| && Plan(g, cfg, maxSizes, nodeBufs, leafBufs).Some?
    requires FullList(cfg, leafBufs, g.leafs) && FullList(cfg, nodeBufs, g.nodes)
    requires k < |g.leafs| && Storable(g, g.leafs[k]) && forall j :: 0 <= j < k ==> g.leafs[j] != g.leafs[k]
    ensures Plan(g, cfg, maxSizes, nodeBufs, leafBufs).value.hv[g.leafs[k]].bufferId == leafBufs[k]
  {
    hide AllocLeafs;
    hide CountAll;
    hide Before;
    hide Readable;
    hide PlanInv;
    hide LeafsOwned;
    var t, s0 := g.leafs[k], InitState(g, cfg, maxSizes);
    CountedPlacesAreFinal(g, cfg, maxSizes, nodeBufs, leafBufs, t);
    InitIsEmpty(g, cfg, maxSizes);
    LeafLoop(g, cfg, leafBufs, s0, 0, k);
    var s1 := AllocLeafs(g, cfg, leafBufs, s0, 0).value;
    LeafIsOwned(g, cfg, leafBufs, s0, k);
    CountLoop(g, cfg, nodeBufs, s1, 0, |g.nodes|, t);
  }

  lemma LeafIsOwned(g: Graph, cfg: Config, leafBufs: seq<nat>, s0: State, k: nat)
    requires Ordered(g) && PlanInv(g, cfg, s0) && NoCounts(s0.hv) && OnlyKnownOwned(g, s0.hv)
    requires AllocLeafs(g, cfg, leafBufs, s0, 0).Some? && k < |g.leafs| && Storable(g, g.leafs[k])
    ensures AllocLeafs(g, cfg, leafBufs, s0, 0).value.hv[g.leafs[k]].owned
  {
    hide AllocLeafs;
    hide MemInv;
    hide Readable;
    LeafsGetOwned(g, cfg, leafBufs, s0, 0);
  }

  /** In a finished plan every graph input that is no leaf is in the buffer of the first node that is it or reads it. */
  lemma InputsInTheirBuffers(g: Graph, cfg: Config, maxSizes: seq<nat>, nodeBufs: seq<nat>, leafBufs: seq<nat>,
                             n: nat, t: nat)
    requires CfgOk(cfg) && Ordered(g) && |maxSizes| == |cfg.bufts| && Plan(g, cfg, maxSizes, nodeBufs, leafBufs).Some?
    requires FullList(cfg, leafBufs, g.leafs) && FullList(cfg, nodeBufs, g.nodes)
    requires n < |g.nodes| && Storable(g, t) && g.tensors[t].input && t !in g.leafs && MeetsFirst(g, 0, n, t)
    ensures Plan(g, cfg, maxSizes, nodeBufs, leafBufs).value.hv[t].bufferId == nodeBufs[n]
  {
    hide AllocLeafs;
    hide CountAll;
    hide Before;
    hide PlanInv;
    hide LeafsOwned;
    var s0 := InitState(g, cfg, maxSizes);
    MetInputIsKnown(g, n, t);
    hide Readable;
    CountedPlacesAreFinal(g, cfg, maxSizes, nodeBufs, leafBufs, t);
    InitIsEmpty(g, cfg, maxSizes);
    var s1 := AllocLeafs(g, cfg, leafBufs, s0, 0).value;
    OthersStayUnowned(g, cfg, leafBufs, s0, 0, t);
    CountLoop(g, cfg, nodeBufs, s1, 0, n, t);
  }

  /** A graph input that a node reads is a leaf or a node. */
  lemma MetInputIsKnown(g: Graph, n: nat, t: nat)
    requires Ordered(g) && n < |g.nodes| && Meets(g, n, t) && Storable(g, t) && g.tensors[t].input
    ensures Known(g, t, 0)
  {
    if g.nodes[n] != t {
      var j :| 0 <= j < |g.Src(n)| && g.Src(n)[j] == t;
      assert Readable(g, t, n);
    }
  }

  lemma {:induction false} OthersStayUnowned(g: Graph, cfg: Config, leafBufs: seq<nat>, s: State, i: nat, t: nat)
    requires Ordered(g) && PlanInv(g, cfg, s) && FullList(cfg, leafBufs, g.leafs) && i <= |g.leafs|
    requires t < |s.hv| && t !in g.leafs && !s.hv[t].owned
    requires AllocLeafs(g, cfg, leafBufs, s, i).Some?
    ensures PlanInv(g, cfg, AllocLeafs(g, cfg, leafBufs, s, i).value)
    ensures !AllocLeafs(g, cfg, leafBufs, s, i).value.hv[t].owned
    decreases |g.leafs| - i
  {
    hide PlanInv;
    hide Readable;
    hide Earlier;
    if i < |g.leafs| {
      PlanInvShape(g, cfg, s);
      hide Shape;
      LeafRound(g, cfg, leafBufs, s, i);
      hide AllocateNode;
      OthersStayUnowned(g, cfg, leafBufs, AllocateNode(g, cfg, s, g.leafs[i], leafBufs[i]).value, i + 1, t);
    }
  }

  /** Node k in the state in which it executes. */
  lemma NodeInPrepared(g: Graph, cfg: Config, buf: nat, s: State, k: nat)
    requires LoopInv(g, cfg, s, k) && k < |g.nodes| && buf < |cfg.bufts| && Prepare(g, cfg, buf, s, k).Some?
    requires Storable(g, g.nodes[k]) && !s.hv[g.nodes[k]].owned
    ensures var m, x := Prepare(g, cfg, buf, s, k).value.hv, g.nodes[k];
            && (forall j :: FirstReuse(g, cfg, k, j) ==>
                  m[x].bufferId == m[g.Src(k)[j]].bufferId && m[x].addr == m[g.Src(k)[j]].addr)
            && ((forall j :: 0 <= j < |g.Src(k)| ==> !MayReuse(g, cfg, k, j)) ==> m[x].bufferId == buf)
  {
    hide Prepare;
    hide AllocateNode;
    hide Taken;
    hide PlanInv;
    hide MayReuse;
    hide CountsBefore;
    hide ViewCountsOk;
    hide OwnedExactly;
    hide Readable;
    LoopInvPlan(g, cfg, s, k);
    PrepareMeaning(g, cfg, buf, s, k);
    PlacedBuffer(g, cfg, s, g.nodes[k], buf);
    TakesFirstReusable(g, cfg, s, k);
    forall j | FirstReuse(g, cfg, k, j)
      ensures var m, x := Prepare(g, cfg, buf, s, k).value.hv, g.nodes[k];
              m[x].bufferId == m[g.Src(k)[j]].bufferId && m[x].addr == m[g.Src(k)[j]].addr
    {
      assert g.Src(k)[j] in g.Src(k);
    }
  }

  /** A node that is neither a leaf nor a graph input is placed by its own step. */
  lemma NotYetPlaced(g: Graph, cfg: Config, s: State, k: nat)
    requires LoopInv(g, cfg, s, k) && k < |g.nodes| && Storable(g, g.nodes[k]) && !g.tensors[g.nodes[k]].input
    ensures !s.hv[g.nodes[k]].owned
  {
    hide PlanInv;
    hide CountsBefore;
    hide ViewCountsOk;
    hide Readable;
    hide NeededBefore;
    assert g.nodes[k] !in g.leafs;
    assert !g.NodeBefore(g.nodes[k], k);
  }

  /** In a finished plan, a node that is no graph input has the place of the first of its sources that it may run in
      place on; when there is none it is in the buffer named for it. */
  lemma NodesInTheirBuffers(g: Graph, cfg: Config, maxSizes: seq<nat>, nodeBufs: seq<nat>, leafBufs: seq<nat>, k: nat)
    requires CfgOk(cfg) && Ordered(g) && |maxSizes| == |cfg.bufts| && Plan(g, cfg, maxSizes, nodeBufs, leafBufs).Some?
    requires FullList(cfg, nodeBufs, g.nodes)
    requires k < |g.nodes| && Storable(g, g.nodes[k]) && !g.tensors[g.nodes[k]].input
    ensures var hv, x := Plan(g, cfg, maxSizes, nodeBufs, leafBufs).value.hv, g.nodes[k];
            && (forall j :: FirstReuse(g, cfg, k, j) ==>
                  hv[x].bufferId == hv[g.Src(k)[j]].bufferId && hv[x].addr == hv[g.Src(k)[j]].addr)
            && ((forall j :: 0 <= j < |g.Src(k)| ==> !MayReuse(g, cfg, k, j)) ==> hv[x].bufferId == nodeBufs[k])
  {
    hide Counted;
    hide Before;
    hide Prepare;
    hide Readable;
    hide LoopInv;
    hide MayReuse;
    StartOfLoop(g, cfg, maxSizes, nodeBufs, leafBufs);
    var s0, n := Counted(g, cfg, maxSizes, nodeBufs, leafBufs).value, |g.nodes|;
    LoopInvShape(g, cfg, s0, 0);
    BeforeIsDefined(g, cfg, nodeBufs, s0, k + 1, n);
    StateAtStep(g, cfg, nodeBufs, s0, k);
    LoopKeepsInv(g, cfg, nodeBufs, s0, k);
    var s := Before(g, cfg, nodeBufs, s0, k).value;
    NotYetPlaced(g, cfg, s, k);
    assert BufOf(cfg, nodeBufs, k) == nodeBufs[k];
    LoopInvPlan(g, cfg, s, k);
    NodeInPrepared(g, cfg, nodeBufs[k], s, k);
    PlacesAreFinal(g, cfg, nodeBufs, s0, k + 1, n);
    KnownNext(g, g.nodes[k], k);
    forall j | FirstReuse(g, cfg, k, j)
      ensures var hv, x := Before(g, cfg, nodeBufs, s0, n).value.hv, g.nodes[k];
              hv[x].bufferId == hv[g.Src(k)[j]].bufferId && hv[x].addr == hv[g.Src(k)[j]].addr
    {
      ReusedIsKnown(g, cfg, k, j);
    }
  }

  lemma ReusedIsKnown(g: Graph, cfg: Config, k: nat, j: nat)
    requires Ordered(g) && k < |g.nodes| && FirstReuse(g, cfg, k, j)
    ensures g.Src(k)[j] < |g.tensors| && Known(g, g.Src(k)[j], k + 1)
  {
    SourceIsNeeded(g, k, j);
    KnownNext(g, g.Src(k)[j], k);
  }
}
