/** The leaf and counting loops establish the loop invariant; then the main result on whole plans. */
module PlanSafety {
  import opened Wrappers
  import opened TensorAlloc
  import opened TensorGraph
  import opened Planner
  import opened PlannerMemory
  import opened PlannerCounts
  import opened PlannerOwners
  import opened PlannerSafety

  // ---------------------------------------------------------------- leafs

  ghost predicate NoCounts(hv: seq<HashNode>) {
    forall t :: 0 <= t < |hv| ==> hv[t].nChildren == 0 && hv[t].nViews == 0
  }

  ghost predicate LeafsOwned(g: Graph, hv: seq<HashNode>, n: nat)
    requires |hv| == |g.tensors| && n <= |g.leafs| && g.IdsOk()
  {
    forall k :: 0 <= k < n && Storable(g, g.leafs[k]) ==> hv[g.leafs[k]].owned
  }

  /** Before the allocation loop, only leafs and graph inputs have been placed. */
  ghost predicate OnlyKnownOwned(g: Graph, hv: seq<HashNode>) {
    forall t :: 0 <= t < |hv| && hv[t].owned ==> Known(g, t, 0)
  }

  lemma InitIsEmpty(g: Graph, cfg: Config, maxSizes: seq<nat>)
    requires CfgOk(cfg) && g.IdsOk() && |maxSizes| == |cfg.bufts|
    ensures PlanInv(g, cfg, InitState(g, cfg, maxSizes)) && NoCounts(InitState(g, cfg, maxSizes).hv)
    ensures OnlyKnownOwned(g, InitState(g, cfg, maxSizes).hv)
  {
    var s := InitState(g, cfg, maxSizes);
    assert Shape(g, cfg, s);
    assert Own(cfg, s.hv) == map[];
    assert forall i :: 0 <= i < |s.pools| ==> Inv(s.pools[i]);
    assert Tiles(s.pools, Own(cfg, s.hv));
  }

  /** allocate_node on a tensor whose op cannot run in place: t ends up owned, nobody else changes. */
  lemma AllocateOutOfPlace(g: Graph, cfg: Config, s: State, t: nat, buf: nat)
    requires PlanInv(g, cfg, s) && t < |s.hv| && buf < |cfg.bufts| && !CanInplace(g.tensors[t].op)
    requires AllocateNode(g, cfg, s, t, buf).Some?
    ensures var s' := AllocateNode(g, cfg, s, t, buf).value;
            && PlanInv(g, cfg, s') && SameCounters(s.hv, s'.hv)
            && (forall u :: 0 <= u < |s.hv| ==> s'.hv[u].owned == (s.hv[u].owned || (u == t && Storable(g, t))))
  {
    AllocateNodeKeepsInv(g, cfg, s, t, buf);
  }

  lemma {:induction false} LeafsGetOwned(g: Graph, cfg: Config, leafBufs: seq<nat>, s: State, i: nat)
    requires Ordered(g) && PlanInv(g, cfg, s) && NoCounts(s.hv) && i <= |g.leafs| && LeafsOwned(g, s.hv, i)
             && OnlyKnownOwned(g, s.hv)
    requires AllocLeafs(g, cfg, leafBufs, s, i).Some?
    ensures var s' := AllocLeafs(g, cfg, leafBufs, s, i).value;
            PlanInv(g, cfg, s') && NoCounts(s'.hv) && LeafsOwned(g, s'.hv, |g.leafs|) && OnlyKnownOwned(g, s'.hv)
    decreases |g.leafs| - i
  {
    hide AllocateNode;
    hide MemInv;
    if i < |g.leafs| {
      var t, buf := g.leafs[i], BufOf(cfg, leafBufs, i);
      AllocateOutOfPlace(g, cfg, s, t, buf);
      LeafsGetOwned(g, cfg, leafBufs, AllocateNode(g, cfg, s, t, buf).value, i + 1);
    }
  }

  // ---------------------------------------------------------------- counting

  ghost function ViewsUpTo(g: Graph, t: nat, k: nat): set<nat>
    requires g.IdsOk() && k <= |g.nodes|
  {
    set v | v in g.nodes[..k] && v < |g.tensors| && g.tensors[v].viewSrc == Some(t) && g.tensors[v].op != NONE
  }

  ghost predicate ViewsCounted(g: Graph, hv: seq<HashNode>, k: nat)
    requires g.IdsOk() && |hv| == |g.tensors| && k <= |g.nodes|
  {
    forall t :: 0 <= t < |hv| ==> hv[t].nViews == |ViewsUpTo(g, t, k)|
  }

  ghost predicate InputsOwned(g: Graph, hv: seq<HashNode>, k: nat)
    requires g.IdsOk() && |hv| == |g.tensors| && k <= |g.nodes|
  {
    forall i :: 0 <= i < k && g.tensors[g.nodes[i]].input && Storable(g, g.nodes[i]) ==> hv[g.nodes[i]].owned
  }

  /** Sources 0..j-1 of node k have been counted. */
  ghost predicate ChildrenCounted(g: Graph, hv: seq<HashNode>, k: nat, j: nat)
    requires g.IdsOk() && |hv| == |g.tensors| && k < |g.nodes| && j <= |g.Src(k)|
  {
    forall t :: 0 <= t < |hv| ==> hv[t].nChildren + Rem(g, t, k, j) == UsesFrom(g, t, 0)
  }

  ghost predicate ChildrenCountedBefore(g: Graph, hv: seq<HashNode>, k: nat)
    requires g.IdsOk() && |hv| == |g.tensors| && k <= |g.nodes|
  {
    forall t :: 0 <= t < |hv| ==> hv[t].nChildren + UsesFrom(g, t, k) == UsesFrom(g, t, 0)
  }

  ghost predicate CountInv(g: Graph, cfg: Config, s: State, k: nat) {
    && Ordered(g) && k <= |g.nodes| && PlanInv(g, cfg, s)
    && LeafsOwned(g, s.hv, |g.leafs|) && OnlyKnownOwned(g, s.hv)
    && ViewsCounted(g, s.hv, k) && InputsOwned(g, s.hv, k)
  }

  lemma OutOfPlaceKeepsCountInv(g: Graph, cfg: Config, s: State, s': State, k: nat)
    requires CountInv(g, cfg, s, k) && PlanInv(g, cfg, s') && SameCounters(s.hv, s'.hv)
    requires forall u :: 0 <= u < |s.hv| && s.hv[u].owned ==> s'.hv[u].owned
    requires OnlyKnownOwned(g, s'.hv)
    ensures CountInv(g, cfg, s', k)
  {
  }

  lemma CountOneSource(g: Graph, cfg: Config, s: State, k: nat, j: nat)
    requires CountInv(g, cfg, s, k + 1) && k < |g.nodes| && j < |g.Src(k)| && ChildrenCounted(g, s.hv, k, j)
    ensures var s1 := s.(hv := AddChildren(s.hv, g.Src(k)[j], 1));
            CountInv(g, cfg, s1, k + 1) && ChildrenCounted(g, s1.hv, k, j + 1)
  {
    hide MemInv;
    CountersKeepInv(g, cfg, s, AddChildren(s.hv, g.Src(k)[j], 1));
  }

  lemma {:induction false} CountSourcesMeaning(g: Graph, cfg: Config, buf: nat, s: State, k: nat, j: nat)
    requires CountInv(g, cfg, s, k + 1) && k < |g.nodes| && j <= |g.Src(k)| && buf < |cfg.bufts|
             && ChildrenCounted(g, s.hv, k, j)
    requires CountSources(g, cfg, buf, s, k, j).Some?
    ensures var s' := CountSources(g, cfg, buf, s, k, j).value;
            CountInv(g, cfg, s', k + 1) && ChildrenCounted(g, s'.hv, k, |g.Src(k)|)
    decreases |g.Src(k)| - j
  {
    hide AllocateNode;
    hide MemInv;
    if j < |g.Src(k)| {
      var src := g.Src(k)[j];
      var s1 := s.(hv := AddChildren(s.hv, src, 1));
      CountOneSource(g, cfg, s, k, j);
      if g.tensors[src].input {
        AllocateOutOfPlace(g, cfg, s1, src, buf);
        var s2 := AllocateNode(g, cfg, s1, src, buf).value;
        assert Readable(g, src, k);
        OutOfPlaceKeepsCountInv(g, cfg, s1, s2, k + 1);
        CountSourcesMeaning(g, cfg, buf, s2, k, j + 1);
      } else {
        CountSourcesMeaning(g, cfg, buf, s1, k, j + 1);
      }
    }
  }

  lemma ViewsUpToStep(g: Graph, t: nat, k: nat)
    requires Ordered(g) && k < |g.nodes|
    ensures |ViewsUpTo(g, t, k + 1)| == |ViewsUpTo(g, t, k)| +
            (if g.tensors[g.nodes[k]].viewSrc == Some(t) && g.tensors[g.nodes[k]].op != NONE then 1 else 0)
  {
    var v := g.nodes[k];
    assert g.nodes[..k + 1] == g.nodes[..k] + [v];
    assert v !in g.nodes[..k];
    if g.tensors[v].viewSrc == Some(t) && g.tensors[v].op != NONE {
      assert ViewsUpTo(g, t, k + 1) == ViewsUpTo(g, t, k) + {v};
    } else {
      assert ViewsUpTo(g, t, k + 1) == ViewsUpTo(g, t, k);
    }
  }

  /** The state after the view count of node k, before its own placement as an input. */
  ghost predicate ViewCounted(g: Graph, cfg: Config, s: State, k: nat) {
    && Ordered(g) && k < |g.nodes| && PlanInv(g, cfg, s)
    && LeafsOwned(g, s.hv, |g.leafs|) && OnlyKnownOwned(g, s.hv) && InputsOwned(g, s.hv, k)
    && ViewsCounted(g, s.hv, k + 1) && ChildrenCounted(g, s.hv, k, 0)
  }

  lemma CountViewKeepsCounts(g: Graph, hv: seq<HashNode>, hv': seq<HashNode>, k: nat)
    requires Ordered(g) && k < |g.nodes| && |hv| == |g.tensors| && ViewsCounted(g, hv, k)
    requires var t := g.nodes[k];
             hv' == if g.IsView(t) && g.tensors[t].op != NONE then AddViews(hv, g.tensors[t].viewSrc.value, 1) else hv
    ensures ViewsCounted(g, hv', k + 1)
  {
    forall u | 0 <= u < |hv| ensures hv'[u].nViews == |ViewsUpTo(g, u, k + 1)| { ViewsUpToStep(g, u, k); }
  }

  lemma CountView(g: Graph, cfg: Config, s: State, k: nat)
    requires CountInv(g, cfg, s, k) && k < |g.nodes| && ChildrenCountedBefore(g, s.hv, k)
    ensures var t := g.nodes[k];
            var s1 := if g.IsView(t) && g.tensors[t].op != NONE then
              s.(hv := AddViews(s.hv, g.tensors[t].viewSrc.value, 1)) else s;
            ViewCounted(g, cfg, s1, k)
  {
    hide MemInv;
    hide ViewsCounted;
    var t := g.nodes[k];
    if g.IsView(t) && g.tensors[t].op != NONE {
      var hv' := AddViews(s.hv, g.tensors[t].viewSrc.value, 1);
      CountViewKeepsCounts(g, s.hv, hv', k);
      CountersKeepInv(g, cfg, s, hv');
    } else {
      CountViewKeepsCounts(g, s.hv, s.hv, k);
    }
  }

  lemma CountInput(g: Graph, cfg: Config, buf: nat, s: State, k: nat)
    requires ViewCounted(g, cfg, s, k) && buf < |cfg.bufts|
    requires g.tensors[g.nodes[k]].input ==> AllocateNode(g, cfg, s, g.nodes[k], buf).Some?
    ensures var s' := if g.tensors[g.nodes[k]].input then AllocateNode(g, cfg, s, g.nodes[k], buf).value else s;
            CountInv(g, cfg, s', k + 1) && ChildrenCounted(g, s'.hv, k, 0)
  {
    hide AllocateNode;
    hide MemInv;
    hide Own;
    if g.tensors[g.nodes[k]].input { AllocateOutOfPlace(g, cfg, s, g.nodes[k], buf); }
  }

  lemma CountNodeMeaning(g: Graph, cfg: Config, buf: nat, s: State, k: nat)
    requires CountInv(g, cfg, s, k) && k < |g.nodes| && buf < |cfg.bufts| && ChildrenCountedBefore(g, s.hv, k)
    requires CountNode(g, cfg, buf, s, k).Some?
    ensures var s' := CountNode(g, cfg, buf, s, k).value;
            CountInv(g, cfg, s', k + 1) && ChildrenCountedBefore(g, s'.hv, k + 1)
  {
    hide AllocateNode;
    hide CountSources;
    hide MemInv;
    hide ViewsCounted;
    hide LeafsOwned;
    hide InputsOwned;
    var t := g.nodes[k];
    var s1 := if g.IsView(t) && g.tensors[t].op != NONE then s.(hv := AddViews(s.hv, g.tensors[t].viewSrc.value, 1))
      else s;
    CountView(g, cfg, s, k);
    CountInput(g, cfg, buf, s1, k);
    CountSourcesMeaning(g, cfg, buf, if g.tensors[t].input then AllocateNode(g, cfg, s1, t, buf).value else s1, k, 0);
  }

  lemma {:induction false} CountAllMeaning(g: Graph, cfg: Config, nodeBufs: seq<nat>, s: State, k: nat)
    requires CountInv(g, cfg, s, k) && k <= |g.nodes| && ChildrenCountedBefore(g, s.hv, k)
    requires CountAll(g, cfg, nodeBufs, s, k).Some?
    ensures var s' := CountAll(g, cfg, nodeBufs, s, k).value;
            CountInv(g, cfg, s', |g.nodes|) && ChildrenCountedBefore(g, s'.hv, |g.nodes|)
    decreases |g.nodes| - k
  {
    hide CountNode;
    hide MemInv;
    hide CountInv;
    hide ChildrenCountedBefore;
    if k < |g.nodes| {
      CountInvShape(g, cfg, s, k);
      CountNodeMeaning(g, cfg, BufOf(cfg, nodeBufs, k), s, k);
      CountAllMeaning(g, cfg, nodeBufs, CountNode(g, cfg, BufOf(cfg, nodeBufs, k), s, k).value, k + 1);
    }
  }

  lemma CountInvShape(g: Graph, cfg: Config, s: State, k: nat)
    requires CountInv(g, cfg, s, k)
    ensures Shape(g, cfg, s)
  {
  }

  lemma EverythingIsNeededAtFirst(g: Graph, t: nat)
    requires g.IdsOk() && t < |g.tensors|
    ensures NeededBefore(g, t, 0)
  {
  }

  lemma ActiveAtFirst(g: Graph, hv: seq<HashNode>, t: nat)
    requires Ordered(g) && |hv| == |g.tensors| && t < |hv| && ChildrenCountedBefore(g, hv, |g.nodes|)
    ensures ViewsUpTo(g, t, |g.nodes|) == Active(g, hv, t)
  {
    assert g.nodes[..|g.nodes|] == g.nodes;
  }

  lemma CountedEstablishesLoopInv(g: Graph, cfg: Config, s: State)
    requires CountInv(g, cfg, s, |g.nodes|) && ChildrenCountedBefore(g, s.hv, |g.nodes|)
    ensures LoopInv(g, cfg, s, 0)
  {
    hide MemInv;
    forall t | 0 <= t < |s.hv| ensures s.hv[t].nViews == |Active(g, s.hv, t)| {
      ActiveAtFirst(g, s.hv, t);
    }
    forall t | Storable(g, t) ensures s.hv[t].owned <==> Known(g, t, 0) && NeededBefore(g, t, 0) {
      EverythingIsNeededAtFirst(g, t);
      if t in g.leafs {
        var k :| 0 <= k < |g.leafs| && g.leafs[k] == t;
      } else if Known(g, t, 0) {
        var i :| 0 <= i < |g.nodes| && g.nodes[i] == t;
      }
    }
  }

  /** Whatever the plan does, its allocation loop starts from a state satisfying the invariant. */
  lemma StartOfLoop(g: Graph, cfg: Config, maxSizes: seq<nat>, nodeBufs: seq<nat>, leafBufs: seq<nat>)
    requires CfgOk(cfg) && Ordered(g) && |maxSizes| == |cfg.bufts|
    requires Counted(g, cfg, maxSizes, nodeBufs, leafBufs).Some?
    ensures LoopInv(g, cfg, Counted(g, cfg, maxSizes, nodeBufs, leafBufs).value, 0)
  {
    hide MemInv;
    var s0 := InitState(g, cfg, maxSizes);
    InitIsEmpty(g, cfg, maxSizes);
    LeafsGetOwned(g, cfg, leafBufs, s0, 0);
    var s1 := AllocLeafs(g, cfg, leafBufs, s0, 0).value;
    forall t | 0 <= t < |s1.hv| ensures |ViewsUpTo(g, t, 0)| == 0 {
      assert ViewsUpTo(g, t, 0) == {};
    }
    CountAllMeaning(g, cfg, nodeBufs, s1, 0);
    CountedEstablishesLoopInv(g, cfg, Counted(g, cfg, maxSizes, nodeBufs, leafBufs).value);
  }

  // ---------------------------------------------------------------- main results

  /** The contents of t matter while node j executes: t exists by then and is an output, is being produced,
      or is read by node j or a later one, directly or through a view. */
  ghost predicate LiveAt(g: Graph, t: nat, j: nat)
    requires g.IdsOk() && j < |g.nodes|
  {
    Storable(g, t) && Known(g, t, j + 1) && (g.tensors[t].output || g.nodes[j] == t || ReadFrom(g, t, j))
  }

  /** Node j runs in place on its source p: same address, no more room, and nobody reads p afterwards. */
  ghost predicate RunsInPlaceOn(g: Graph, cfg: Config, hv: seq<HashNode>, j: nat, p: nat)
    requires g.IdsOk() && j < |g.nodes| && |hv| == |g.tensors| && p < |hv| && BuffersOk(cfg, hv)
  {
    var x := g.nodes[j];
    && p in g.Src(j) && CanInplace(g.tensors[x].op) && cfg.sameLayout(x, p)
    && RangeOf(cfg, hv, x).pool == RangeOf(cfg, hv, p).pool && RangeOf(cfg, hv, x).addr == RangeOf(cfg, hv, p).addr
    && RangeOf(cfg, hv, x).size <= RangeOf(cfg, hv, p).size
    && !g.tensors[p].output && !ReadFrom(g, p, j + 1)
  }

  lemma LiveBeforeIsOwned(g: Graph, cfg: Config, s: State, t: nat, j: nat)
    requires LoopInv(g, cfg, s, j) && j < |g.nodes| && LiveAt(g, t, j) && t != g.nodes[j]
    ensures s.hv[t].owned && Known(g, t, j)
  {
    KnownNext(g, t, j);
    if ReadFrom(g, t, j) { ReadsArePending(g, t, j); }
    assert NeededBefore(g, t, j);
  }

  /** Owners are apart in any single state. */
  lemma OwnersApart(g: Graph, cfg: Config, s: State, t: nat, u: nat)
    requires PlanInv(g, cfg, s) && t < |s.hv| && u < |s.hv| && t != u && s.hv[t].owned && s.hv[u].owned
    ensures Apart(RangeOf(cfg, s.hv, t), RangeOf(cfg, s.hv, u))
  {
    var own := Own(cfg, s.hv);
    assert own[t] == RangeOf(cfg, s.hv, t) && own[u] == RangeOf(cfg, s.hv, u);
  }

  /** Two live tensors in the state in which node j executes, with the addresses of that state. */
  lemma ApartAtStep(g: Graph, cfg: Config, buf: nat, s: State, j: nat, t: nat, u: nat)
    requires LoopInv(g, cfg, s, j) && j < |g.nodes| && buf < |cfg.bufts| && Prepare(g, cfg, buf, s, j).Some?
    requires t != u && LiveAt(g, t, j) && LiveAt(g, u, j) && t != g.nodes[j]
    ensures var hv := Prepare(g, cfg, buf, s, j).value.hv;
            || Apart(RangeOf(cfg, hv, t), RangeOf(cfg, hv, u))
            || (u == g.nodes[j] && RunsInPlaceOn(g, cfg, hv, j, t))
  {
    hide Prepare;
    hide AllocateNode;
    hide Taken;
    hide MemInv;
    var m, x, taken := Prepare(g, cfg, buf, s, j).value, g.nodes[j], Taken(g, cfg, s, g.nodes[j]);
    PrepareMeaning(g, cfg, buf, s, j);
    LiveBeforeIsOwned(g, cfg, s, t, j);
    if u != x {
      LiveBeforeIsOwned(g, cfg, s, u, j);
      OwnersApart(g, cfg, s, t, u);
    } else if taken == Some(t) {
      TakenIsDone(g, cfg, s, m, j, t);
    } else {
      OwnersApart(g, cfg, m, t, u);
    }
  }

  /** Plan safety. In every plan of an ordered graph, at every step j, two distinct tensors whose contents matter at
      step j are planned on disjoint bytes, unless one of them is node j running in place on the other. */
  lemma PlanIsSafe(g: Graph, cfg: Config, maxSizes: seq<nat>, nodeBufs: seq<nat>, leafBufs: seq<nat>, j: nat, t: nat,
                   u: nat)
    requires CfgOk(cfg) && Ordered(g) && |maxSizes| == |cfg.bufts|
    requires Plan(g, cfg, maxSizes, nodeBufs, leafBufs).Some?
    requires j < |g.nodes| && t != u && LiveAt(g, t, j) && LiveAt(g, u, j)
    ensures var hv := Plan(g, cfg, maxSizes, nodeBufs, leafBufs).value.hv;
            || Apart(RangeOf(cfg, hv, t), RangeOf(cfg, hv, u))
            || (u == g.nodes[j] && RunsInPlaceOn(g, cfg, hv, j, t))
            || (t == g.nodes[j] && RunsInPlaceOn(g, cfg, hv, j, u))
  {
    hide LoopInv;
    hide Step;
    hide Prepare;
    hide Counted;
    hide Before;
    hide BufOf;
    hide SamePlaces;
    StartOfLoop(g, cfg, maxSizes, nodeBufs, leafBufs);
    var s0 := Counted(g, cfg, maxSizes, nodeBufs, leafBufs).value;
    if t != g.nodes[j] {
      SafeInLoop(g, cfg, nodeBufs, s0, j, t, u);
    } else {
      SafeInLoop(g, cfg, nodeBufs, s0, j, u, t);
    }
  }

  lemma SafeInLoop(g: Graph, cfg: Config, nodeBufs: seq<nat>, s0: State, j: nat, t: nat, u: nat)
    requires LoopInv(g, cfg, s0, 0) && Before(g, cfg, nodeBufs, s0, |g.nodes|).Some?
    requires j < |g.nodes| && t != u && LiveAt(g, t, j) && LiveAt(g, u, j) && t != g.nodes[j]
    ensures var hv := Before(g, cfg, nodeBufs, s0, |g.nodes|).value.hv;
            || Apart(RangeOf(cfg, hv, t), RangeOf(cfg, hv, u))
            || (u == g.nodes[j] && RunsInPlaceOn(g, cfg, hv, j, t))
  {
    hide Prepare;
    hide AllocateNode;
    hide UpdateParents;
    hide Step;
    hide LoopInv;
    LoopInvShape(g, cfg, s0, 0);
    var n, buf := |g.nodes|, BufOf(cfg, nodeBufs, j);
    BeforeIsDefined(g, cfg, nodeBufs, s0, j + 1, n);
    StateAtStep(g, cfg, nodeBufs, s0, j);
    var s := Before(g, cfg, nodeBufs, s0, j).value;
    LoopKeepsInv(g, cfg, nodeBufs, s0, j);
    ApartAtStep(g, cfg, buf, s, j, t, u);
    PlacesAreFinal(g, cfg, nodeBufs, s0, j + 1, n);
    var m, hv := Prepare(g, cfg, buf, s, j).value.hv, Before(g, cfg, nodeBufs, s0, n).value.hv;
    SameRange(cfg, m, hv, t);
    SameRange(cfg, m, hv, u);
    if u == g.nodes[j] { SameRange(cfg, m, hv, g.nodes[j]); }
  }

  /** The state in which node j executes already has the addresses of the state after step j. */
  lemma StateAtStep(g: Graph, cfg: Config, nodeBufs: seq<nat>, s0: State, j: nat)
    requires LoopInv(g, cfg, s0, 0) && j < |g.nodes| && Before(g, cfg, nodeBufs, s0, j + 1).Some?
    ensures Before(g, cfg, nodeBufs, s0, j).Some?
    ensures var s, s', buf := Before(g, cfg, nodeBufs, s0, j).value, Before(g, cfg, nodeBufs, s0, j + 1).value,
            BufOf(cfg, nodeBufs, j);
            && Prepare(g, cfg, buf, s, j).Some?
            && AllSamePlaces(Prepare(g, cfg, buf, s, j).value.hv, s'.hv)
  {
    hide Prepare;
    hide UpdateParents;
    LoopKeepsInv(g, cfg, nodeBufs, s0, j);
    StepKeepsInv(g, cfg, BufOf(cfg, nodeBufs, j), Before(g, cfg, nodeBufs, s0, j).value, j);
  }

  lemma SameRange(cfg: Config, hv: seq<HashNode>, hv': seq<HashNode>, t: nat)
    requires BuffersOk(cfg, hv) && BuffersOk(cfg, hv') && t < |hv| == |hv'|
    requires hv'[t].addr == hv[t].addr && hv'[t].bufferId == hv[t].bufferId
    ensures RangeOf(cfg, hv', t) == RangeOf(cfg, hv, t)
  {
  }

  /** An output that exists before step j is never overlapped by the node planned at step j or any later one. */
  lemma OutputsAreNeverOverlapped(g: Graph, cfg: Config, maxSizes: seq<nat>, nodeBufs: seq<nat>, leafBufs: seq<nat>,
                                  j: nat, t: nat)
    requires CfgOk(cfg) && Ordered(g) && |maxSizes| == |cfg.bufts|
    requires Plan(g, cfg, maxSizes, nodeBufs, leafBufs).Some?
    requires j < |g.nodes| && Storable(g, t) && g.tensors[t].output && Known(g, t, j) && t != g.nodes[j]
             && Storable(g, g.nodes[j])
    ensures var hv := Plan(g, cfg, maxSizes, nodeBufs, leafBufs).value.hv;
            Apart(RangeOf(cfg, hv, t), RangeOf(cfg, hv, g.nodes[j]))
  {
    hide Plan;
    hide Counted;
    hide Before;
    KnownNext(g, t, j);
    KnownNext(g, g.nodes[j], j);
    NodeIsNotItsOwnSource(g, j);
    PlanIsSafe(g, cfg, maxSizes, nodeBufs, leafBufs, j, t, g.nodes[j]);
  }

  /** Storage is held exactly as long as needed: before step k a tensor the planner places owns its range if and only if
      it exists by then and is still to be produced, still to be read, or kept on purpose. */
  lemma HeldExactlyWhileNeeded(g: Graph, cfg: Config, maxSizes: seq<nat>, nodeBufs: seq<nat>, leafBufs: seq<nat>,
                               k: nat, t: nat)
    requires CfgOk(cfg) && Ordered(g) && |maxSizes| == |cfg.bufts| && k <= |g.nodes| && Storable(g, t)
    requires Plan(g, cfg, maxSizes, nodeBufs, leafBufs).Some?
    ensures var s0 := Counted(g, cfg, maxSizes, nodeBufs, leafBufs).value;
            && Before(g, cfg, nodeBufs, s0, k).Some?
            && (Before(g, cfg, nodeBufs, s0, k).value.hv[t].owned <==> Known(g, t, k) && NeededBefore(g, t, k))
  {
    hide MemInv;
    hide Step;
    hide Counted;
    hide NeededBefore;
    StartOfLoop(g, cfg, maxSizes, nodeBufs, leafBufs);
    var s0 := Counted(g, cfg, maxSizes, nodeBufs, leafBufs).value;
    BeforeIsDefined(g, cfg, nodeBufs, s0, k, |g.nodes|);
    LoopKeepsInv(g, cfg, nodeBufs, s0, k);
  }

  /** A finished plan holds on to nothing but outputs, tensors nobody reads and roots of views nobody reads. */
  lemma NothingLeaks(g: Graph, cfg: Config, maxSizes: seq<nat>, nodeBufs: seq<nat>, leafBufs: seq<nat>, t: nat)
    requires CfgOk(cfg) && Ordered(g) && |maxSizes| == |cfg.bufts| && Storable(g, t)
    requires Plan(g, cfg, maxSizes, nodeBufs, leafBufs).Some?
    ensures Plan(g, cfg, maxSizes, nodeBufs, leafBufs).value.hv[t].owned <==>
            Known(g, t, |g.nodes|) && HeldForever(g, t)
  {
    hide Counted;
    hide Before;
    HeldExactlyWhileNeeded(g, cfg, maxSizes, nodeBufs, leafBufs, |g.nodes|, t);
  }
}
