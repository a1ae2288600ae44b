/** Plan safety: while a tensor may still be read, nobody else is planned onto its bytes. */
module PlannerSafety {
  import opened Wrappers
  import opened TensorAlloc
  import opened TensorGraph
  import opened Planner
  import opened PlannerMemory
  import opened PlannerCounts
  import opened PlannerOwners

  /** Has storage contents from before step k on: a leaf, a graph input, or an earlier node. */
  ghost predicate Known(g: Graph, t: nat, k: int) {
    t in g.leafs || (t < |g.tensors| && g.tensors[t].input && t in g.nodes) || g.NodeBefore(t, k)
  }

  ghost predicate NodeFrom(g: Graph, t: nat, k: int) {
    exists i :: 0 <= k <= i < |g.nodes| && g.nodes[i] == t
  }

  ghost predicate NeededBefore(g: Graph, t: nat, k: nat)
    requires g.IdsOk() && k <= |g.nodes| && t < |g.tensors|
  {
    PendingBefore(g, t, k) || HeldForever(g, t) || NodeFrom(g, t, k)
  }

  ghost predicate NeededAt(g: Graph, t: nat, k: nat, j: nat)
    requires g.IdsOk() && k < |g.nodes| && j <= |g.Src(k)| && t < |g.tensors|
  {
    Pending(g, t, k, j) || HeldForever(g, t) || NodeFrom(g, t, k + 1)
  }

  /** Loop invariant of the allocation loop. */
  ghost predicate LoopInv(g: Graph, cfg: Config, s: State, k: nat) {
    && Ordered(g) && k <= |g.nodes|
    && PlanInv(g, cfg, s)
    && CountsBefore(g, s.hv, k) && ViewCountsOk(g, s.hv)
    && OwnedExactly(g, s.hv, k)
  }

  /** Between steps, a tensor owns its range exactly when it exists and is still needed. */
  ghost predicate OwnedExactly(g: Graph, hv: seq<HashNode>, k: nat)
    requires g.IdsOk() && |hv| == |g.tensors| && k <= |g.nodes|
  {
    forall t :: Storable(g, t) ==> (hv[t].owned <==> Known(g, t, k) && NeededBefore(g, t, k))
  }

  /** Invariant of the loop that updates the parents of node k; `taken` is the parent node k runs in place on. */
  ghost predicate UpdateInv(g: Graph, cfg: Config, s: State, k: nat, j: nat, taken: Option<nat>) {
    && Ordered(g) && k < |g.nodes| && j <= |g.Src(k)|
    && PlanInv(g, cfg, s)
    && CountsAt(g, s.hv, k, j) && ViewCountsOk(g, s.hv)
    && OwnedWhileNeeded(g, s.hv, k, j, taken)
  }

  ghost predicate OwnedWhileNeeded(g: Graph, hv: seq<HashNode>, k: nat, j: nat, taken: Option<nat>)
    requires g.IdsOk() && |hv| == |g.tensors| && k < |g.nodes| && j <= |g.Src(k)|
  {
    forall t :: Storable(g, t) ==> (hv[t].owned <==> Known(g, t, k + 1) && NeededAt(g, t, k, j) && taken != Some(t))
  }

  /** Address and buffer of every tensor that existed before step k stay what they were. */
  ghost predicate SamePlaces(g: Graph, hv: seq<HashNode>, hv': seq<HashNode>, k: int) {
    |hv'| == |hv| && forall t :: 0 <= t < |hv| && Known(g, t, k) ==>
      hv'[t].addr == hv[t].addr && hv'[t].bufferId == hv[t].bufferId
  }

  ghost predicate AllSamePlaces(hv: seq<HashNode>, hv': seq<HashNode>) {
    |hv'| == |hv| && forall t :: 0 <= t < |hv| ==> hv'[t].addr == hv[t].addr && hv'[t].bufferId == hv[t].bufferId
  }

  // ---------------------------------------------------------------- preparing a node

  lemma SourceIsNeeded(g: Graph, k: nat, j: nat)
    requires Ordered(g) && k < |g.nodes| && j < |g.Src(k)| && !g.IsView(g.Src(k)[j])
    ensures Known(g, g.Src(k)[j], k) && NeededBefore(g, g.Src(k)[j], k)
  {
    assert Readable(g, g.Src(k)[j], k);
    UsesPositive(g, g.Src(k)[j], k, k, j);
  }

  /** Only leafs need allocating as parents, and they already are: the parents loop does nothing. */
  lemma {:induction false} ParentsAlreadyPlaced(g: Graph, cfg: Config, buf: nat, s: State, k: nat, j: nat)
    requires LoopInv(g, cfg, s, k) && k < |g.nodes| && j <= |g.Src(k)| && buf < |cfg.bufts|
    ensures AllocParents(g, cfg, buf, s, k, j) == Some(s)
    decreases |g.Src(k)| - j
  {
    hide FindReuse;
    hide AllocFresh;
    hide TakeOver;
    if j < |g.Src(k)| {
      if !g.IsView(g.Src(k)[j]) { SourceIsNeeded(g, k, j); }
      ParentsAlreadyPlaced(g, cfg, buf, s, k, j + 1);
    }
  }

  lemma NodeIsNotItsOwnSource(g: Graph, k: nat)
    requires Ordered(g) && k < |g.nodes|
    ensures g.nodes[k] !in g.Src(k)
  {
    forall j | 0 <= j < |g.Src(k)| ensures g.Src(k)[j] != g.nodes[k] {
      assert Readable(g, g.Src(k)[j], k);
    }
  }

  /** A node that was placed before its own step (a graph input) is still owned when its step comes. */
  lemma KnownNodeIsOwned(g: Graph, cfg: Config, s: State, k: nat)
    requires LoopInv(g, cfg, s, k) && k < |g.nodes| && Storable(g, g.nodes[k]) && Known(g, g.nodes[k], k)
    ensures s.hv[g.nodes[k]].owned
  {
    assert NodeFrom(g, g.nodes[k], k);
  }

  /** Preparing node k is allocating it: its sources are placed already. */
  lemma PrepareAllocates(g: Graph, cfg: Config, buf: nat, s: State, k: nat)
    requires LoopInv(g, cfg, s, k) && k < |g.nodes| && buf < |cfg.bufts|
    ensures Prepare(g, cfg, buf, s, k) == AllocateNode(g, cfg, s, g.nodes[k], buf)
  {
    hide AllocateNode;
    hide AllocParents;
    hide PlanInv;
    hide CountsBefore;
    hide ViewCountsOk;
    hide NeededBefore;
    hide Readable;
    ParentsAlreadyPlaced(g, cfg, buf, s, k, 0);
    LoopInvPlan(g, cfg, s, k);
  }

  lemma LoopInvPlan(g: Graph, cfg: Config, s: State, k: nat)
    requires LoopInv(g, cfg, s, k) && k < |g.nodes|
    ensures PlanInv(g, cfg, s) && Shape(g, cfg, s) && g.nodes[k] < |s.hv| && g.nodes[k] !in g.tensors[g.nodes[k]].src
  {
    hide MemInv;
    hide CountsBefore;
    hide ViewCountsOk;
    hide NeededBefore;
    NodeIsNotItsOwnSource(g, k);
  }

  /** Allocating node k moves nothing that has its place already. */
  lemma PlacesSurviveAllocation(g: Graph, cfg: Config, s: State, m: State, k: nat, taken: Option<nat>)
    requires LoopInv(g, cfg, s, k) && k < |g.nodes|
    requires if Storable(g, g.nodes[k]) && !s.hv[g.nodes[k]].owned then AllocEffect(s, m, g.nodes[k], taken) else m == s
    ensures SamePlaces(g, s.hv, m.hv, k)
  {
    hide PlanInv;
    hide CountsBefore;
    hide ViewCountsOk;
    hide NeededBefore;
    hide Readable;
    if Storable(g, g.nodes[k]) && Known(g, g.nodes[k], k) { KnownNodeIsOwned(g, cfg, s, k); }
    hide LoopInv;
    hide Known;
  }

  /** From the state before step k to the state in which node k executes. */
  lemma PrepareMeaning(g: Graph, cfg: Config, buf: nat, s: State, k: nat)
    requires LoopInv(g, cfg, s, k) && k < |g.nodes| && buf < |cfg.bufts|
    requires Prepare(g, cfg, buf, s, k).Some?
    ensures var m, x, taken := Prepare(g, cfg, buf, s, k).value, g.nodes[k], Taken(g, cfg, s, g.nodes[k]);
            && AllocateNode(g, cfg, s, x, buf) == Some(m)
            && PlanInv(g, cfg, m)
            && (if Storable(g, x) && !s.hv[x].owned then AllocEffect(s, m, x, taken) else m == s)
            && (taken.Some? ==> HandedOver(g, cfg, s, m, x, taken.value))
            && SamePlaces(g, s.hv, m.hv, k)
  {
    hide Prepare;
    hide AllocateNode;
    hide Taken;
    hide AllocEffect;
    hide PlanInv;
    hide Shape;
    hide HandedOver;
    hide SamePlaces;
    hide LoopInv;
    LoopInvPlan(g, cfg, s, k);
    PrepareAllocates(g, cfg, buf, s, k);
    AllocateNodeKeepsInv(g, cfg, s, g.nodes[k], buf);
    PlacesSurviveAllocation(g, cfg, s, AllocateNode(g, cfg, s, g.nodes[k], buf).value, k, Taken(g, cfg, s, g.nodes[k]));
  }

  lemma CountersSurvivePrepare(g: Graph, hv: seq<HashNode>, hv': seq<HashNode>, k: nat)
    requires Ordered(g) && |hv| == |g.tensors| == |hv'| && k < |g.nodes|
    requires CountsBefore(g, hv, k) && ViewCountsOk(g, hv)
    requires forall t :: 0 <= t < |hv| ==> hv'[t].nChildren == hv[t].nChildren && hv'[t].nViews == hv[t].nViews
    ensures CountsAt(g, hv', k, 0) && ViewCountsOk(g, hv')
  {
    forall t | 0 <= t < |hv| ensures Active(g, hv', t) == Active(g, hv, t) {}
  }

  lemma KnownNext(g: Graph, t: nat, k: nat)
    requires k < |g.nodes|
    ensures Known(g, t, k + 1) <==> Known(g, t, k) || t == g.nodes[k]
  {
    if Known(g, t, k) && g.NodeBefore(t, k) {
      var i :| 0 <= i < k && i < |g.nodes| && g.nodes[i] == t;
      assert 0 <= i < k + 1 && i < |g.nodes| && g.nodes[i] == t;
    }
    if t == g.nodes[k] { assert 0 <= k < k + 1 && k < |g.nodes| && g.nodes[k] == t; }
  }

  /** PendingBefore and Pending agree at the start of a step. */
  lemma PendingAtStart(g: Graph, t: nat, k: nat)
    requires g.IdsOk() && k < |g.nodes|
    ensures Pending(g, t, k, 0) <==> PendingBefore(g, t, k)
  {
    forall v ensures Rem(g, v, k, 0) == UsesFrom(g, v, k) {}
  }

  lemma PendingAtEnd(g: Graph, t: nat, k: nat)
    requires g.IdsOk() && k < |g.nodes|
    ensures Pending(g, t, k, |g.Src(k)|) <==> PendingBefore(g, t, k + 1)
  {
    forall v ensures Rem(g, v, k, |g.Src(k)|) == UsesFrom(g, v, k + 1) {}
  }

  lemma NeededStays(g: Graph, t: nat, k: nat)
    requires Ordered(g) && k < |g.nodes| && t < |g.tensors| && t != g.nodes[k]
    ensures NeededAt(g, t, k, 0) <==> NeededBefore(g, t, k)
  {
    PendingAtStart(g, t, k);
    if NodeFrom(g, t, k) {
      var i :| k <= i < |g.nodes| && g.nodes[i] == t;
      assert k + 1 <= i;
    }
  }

  /** A node is still needed when it executes: it is pending, kept, or (never read again) kept by definition. */
  lemma ExecutingNodeIsNeeded(g: Graph, k: nat)
    requires Ordered(g) && k < |g.nodes| && !g.IsView(g.nodes[k])
    ensures NeededAt(g, g.nodes[k], k, 0)
  {
    var t := g.nodes[k];
    PendingAtStart(g, t, k);
    if PendingBefore(g, t, 0) && !PendingBefore(g, t, k) {
      NothingReadsEarlier(g, t, k);
    }
  }

  /** No node before step k reads node k or a view of it. */
  lemma {:induction false} NothingReadsEarlier(g: Graph, t: nat, k: nat)
    requires Ordered(g) && k < |g.nodes| && t == g.nodes[k] && !g.IsView(t)
    ensures PendingBefore(g, t, 0) ==> PendingBefore(g, t, k)
  {
    EarlierUsesNothing(g, t, k, k);
    forall v | v in ViewsOf(g, t) ensures UsesFrom(g, v, 0) == UsesFrom(g, v, k) {
      EarlierUsesNothing(g, v, k, k);
    }
  }

  lemma {:induction false} EarlierUsesNothing(g: Graph, v: nat, k: nat, i: nat)
    requires Ordered(g) && i <= k < |g.nodes| && !g.IsView(g.nodes[k])
    requires v == g.nodes[k] || v in ViewsOf(g, g.nodes[k])
    ensures UsesFrom(g, v, 0) == UsesFrom(g, v, i)
  {
    if i > 0 {
      EarlierUsesNothing(g, v, k, i - 1);
      var src := g.Src(i - 1);
      forall j | 0 <= j < |src| ensures src[j] != v { EarlierReadsOther(g, v, k, i - 1, j); }
      OccurrencesZero(src, v, 0);
    }
  }

  lemma EarlierReadsOther(g: Graph, v: nat, k: nat, i: nat, j: nat)
    requires Ordered(g) && i < k < |g.nodes| && j < |g.Src(i)| && !g.IsView(g.nodes[k])
    requires v == g.nodes[k] || v in ViewsOf(g, g.nodes[k])
    ensures g.Src(i)[j] != v
  {
    assert Readable(g, g.Src(i)[j], i);
  }

  lemma TakenOnlyWhenPlaced(g: Graph, cfg: Config, s: State, t: nat)
    requires Shape(g, cfg, s) && t < |s.hv| && Taken(g, cfg, s, t).Some?
    ensures Storable(g, t) && !s.hv[t].owned
  {
    hide FindReuse;
  }

  /** Ownership when node k executes: node k has joined, the parent it runs in place on has left. */
  lemma PreparedOwners(g: Graph, hv: seq<HashNode>, hv': seq<HashNode>, k: nat, taken: Option<nat>)
    requires Ordered(g) && |hv| == |g.tensors| == |hv'| && k < |g.nodes| && OwnedExactly(g, hv, k)
    requires taken != Some(g.nodes[k])
    requires Storable(g, g.nodes[k]) ==> hv'[g.nodes[k]].owned
    requires forall u :: 0 <= u < |hv| && u != g.nodes[k] ==> hv'[u].owned == (hv[u].owned && taken != Some(u))
    ensures OwnedWhileNeeded(g, hv', k, 0, taken)
  {
    hide NeededAt;
    hide NeededBefore;
    hide Known;
    forall t | Storable(g, t) ensures hv'[t].owned <==> Known(g, t, k + 1) && NeededAt(g, t, k, 0) && taken != Some(t) {
      KnownNext(g, t, k);
      if t == g.nodes[k] {
        ExecutingNodeIsNeeded(g, k);
      } else {
        NeededStays(g, t, k);
      }
    }
  }

  lemma PrepareEstablishesUpdateInv(g: Graph, cfg: Config, buf: nat, s: State, k: nat)
    requires LoopInv(g, cfg, s, k) && k < |g.nodes| && buf < |cfg.bufts|
    requires Prepare(g, cfg, buf, s, k).Some?
    ensures UpdateInv(g, cfg, Prepare(g, cfg, buf, s, k).value, k, 0, Taken(g, cfg, s, g.nodes[k]))
  {
    hide Prepare;
    hide AllocateNode;
    hide Taken;
    hide MemInv;
    hide NeededAt;
    hide OwnedWhileNeeded;
    hide OwnedExactly;
    var m, x, taken := Prepare(g, cfg, buf, s, k).value, g.nodes[k], Taken(g, cfg, s, g.nodes[k]);
    PrepareMeaning(g, cfg, buf, s, k);
    CountersSurvivePrepare(g, s.hv, m.hv, k);
    if taken.Some? { TakenOnlyWhenPlaced(g, cfg, s, x); }
    PreparedOwners(g, s.hv, m.hv, k, taken);
  }

  // ---------------------------------------------------------------- after a node has executed

  lemma PendingShrinks(g: Graph, t: nat, k: nat, j: nat)
    requires g.IdsOk() && k < |g.nodes| && j < |g.Src(k)| && Pending(g, t, k, j + 1)
    ensures Pending(g, t, k, j)
  {
    if Rem(g, t, k, j + 1) == 0 {
      var v :| v in ViewsOf(g, t) && Rem(g, v, k, j + 1) > 0;
      assert Rem(g, v, k, j) > 0;
    }
  }

  /** A source of node k, or the root of a source that is a view, is not a node from step k+1 on. */
  lemma ReadTensorsAreOld(g: Graph, k: nat, j: nat)
    requires Ordered(g) && k < |g.nodes| && j < |g.Src(k)|
    ensures !g.IsView(g.Src(k)[j]) ==> !NodeFrom(g, g.Src(k)[j], k + 1)
    ensures g.IsView(g.Src(k)[j]) ==> !NodeFrom(g, g.tensors[g.Src(k)[j]].viewSrc.value, k + 1)
  {
    assert Readable(g, g.Src(k)[j], k);
  }

  /** A read of p changes nothing for tensors other than p and the root p is a view of. */
  lemma PendingElsewhere(g: Graph, t: nat, k: nat, j: nat)
    requires Ordered(g) && k < |g.nodes| && j < |g.Src(k)| && t != g.Src(k)[j] && t < |g.tensors|
    requires g.tensors[g.Src(k)[j]].viewSrc != Some(t)
    ensures NeededAt(g, t, k, j) <==> NeededAt(g, t, k, j + 1)
  {
    var p := g.Src(k)[j];
    forall v | v in ViewsOf(g, t) ensures Rem(g, v, k, j) == Rem(g, v, k, j + 1) {
      assert v != p;
    }
  }

  /** Nothing was freed although p was read: whoever is affected must still be needed. */
  lemma ForgetRead(g: Graph, hv: seq<HashNode>, hv': seq<HashNode>, k: nat, j: nat, taken: Option<nat>)
    requires Ordered(g) && |hv| == |g.tensors| == |hv'| && k < |g.nodes| && j < |g.Src(k)|
    requires OwnedWhileNeeded(g, hv, k, j, taken)
    requires forall t :: 0 <= t < |hv| ==> hv'[t].owned == hv[t].owned
    requires var p := g.Src(k)[j];
             && (Storable(g, p) && hv[p].owned ==> NeededAt(g, p, k, j + 1))
             && (g.IsView(p) && Storable(g, g.tensors[p].viewSrc.value) && hv[g.tensors[p].viewSrc.value].owned ==>
                   NeededAt(g, g.tensors[p].viewSrc.value, k, j + 1))
    ensures OwnedWhileNeeded(g, hv', k, j + 1, taken)
  {
    forall t | Storable(g, t)
      ensures hv'[t].owned <==> Known(g, t, k + 1) && NeededAt(g, t, k, j + 1) && taken != Some(t)
    {
      if t == g.Src(k)[j] || g.tensors[g.Src(k)[j]].viewSrc == Some(t) {
        if Pending(g, t, k, j + 1) { PendingShrinks(g, t, k, j); }
      } else {
        PendingElsewhere(g, t, k, j);
      }
    }
  }

  /** Exactly `freed` (p or its root) stopped being needed and was freed. */
  lemma ForgetFreed(g: Graph, hv: seq<HashNode>, hv': seq<HashNode>, k: nat, j: nat, taken: Option<nat>, freed: nat)
    requires Ordered(g) && |hv| == |g.tensors| == |hv'| && k < |g.nodes| && j < |g.Src(k)|
    requires OwnedWhileNeeded(g, hv, k, j, taken) && freed < |hv|
    requires forall t :: 0 <= t < |hv| ==> hv'[t].owned == (hv[t].owned && t != freed)
    requires freed == (if g.IsView(g.Src(k)[j]) then g.tensors[g.Src(k)[j]].viewSrc.value else g.Src(k)[j])
    requires !NeededAt(g, freed, k, j + 1)
    ensures OwnedWhileNeeded(g, hv', k, j + 1, taken)
  {
    forall t | Storable(g, t)
      ensures hv'[t].owned <==> Known(g, t, k + 1) && NeededAt(g, t, k, j + 1) && taken != Some(t)
    {
      if t != freed { PendingElsewhere(g, t, k, j); }
    }
  }

  ghost predicate SameCounters(hv: seq<HashNode>, hv': seq<HashNode>) {
    |hv'| == |hv| && forall t :: 0 <= t < |hv| ==> hv'[t].nChildren == hv[t].nChildren && hv'[t].nViews == hv[t].nViews
  }

  lemma SameCountersOk(g: Graph, hv: seq<HashNode>, hv': seq<HashNode>, k: nat, j: nat)
    requires g.IdsOk() && |hv| == |g.tensors| && SameCounters(hv, hv') && k < |g.nodes| && j <= |g.Src(k)|
    requires CountsAt(g, hv, k, j) && ViewCountsOk(g, hv)
    ensures CountsAt(g, hv', k, j) && ViewCountsOk(g, hv')
  {
    forall t | 0 <= t < |hv| ensures Active(g, hv', t) == Active(g, hv, t) {}
  }

  /** Everything about a state in the parents loop except who owns what. */
  ghost predicate Consistent(g: Graph, cfg: Config, s: State, k: nat, j: nat) {
    && Ordered(g) && k < |g.nodes| && j <= |g.Src(k)|
    && PlanInv(g, cfg, s)
    && CountsAt(g, s.hv, k, j) && ViewCountsOk(g, s.hv)
  }

  /** What the read of source j of node k leaves behind for t: either both counters are zero and it is not kept
      unless it is an output, or it is still needed. */
  lemma CountersDecide(g: Graph, hv: seq<HashNode>, t: nat, k: nat, j: nat)
    requires Ordered(g) && |hv| == |g.tensors| && t < |hv| && k < |g.nodes| && j < |g.Src(k)|
    requires CountsAt(g, hv, k, j + 1) && ViewCountsOk(g, hv)
    requires (t == g.Src(k)[j] && !g.IsView(t)) || g.tensors[g.Src(k)[j]].viewSrc == Some(t)
    ensures hv[t].nChildren == 0 && hv[t].nViews == 0 ==> (NeededAt(g, t, k, j + 1) <==> g.tensors[t].output)
    ensures !(hv[t].nChildren == 0 && hv[t].nViews == 0) ==> NeededAt(g, t, k, j + 1)
  {
    ReadTensorsAreOld(g, k, j);
    UsesPositive(g, g.Src(k)[j], 0, k, j);
    assert PendingBefore(g, t, 0) by {
      if t != g.Src(k)[j] { assert g.Src(k)[j] in ViewsOf(g, t); }
    }
    if hv[t].nChildren == 0 && hv[t].nViews == 0 {
      ZeroCountersMeanDone(g, hv, t, k, j + 1);
    } else if !NeededAt(g, t, k, j + 1) {
      DoneMeansZeroCounters(g, hv, t, k, j + 1);
    }
  }

  /** Freeing (or, for an output, keeping) a tensor whose counters are both zero. */
  lemma FreeUnneeded(g: Graph, cfg: Config, hv: seq<HashNode>, mid: State, k: nat, j: nat, taken: Option<nat>)
    requires Consistent(g, cfg, mid, k, j + 1) && j < |g.Src(k)| && |hv| == |mid.hv|
             && OwnedWhileNeeded(g, hv, k, j, taken)
    requires forall u :: 0 <= u < |hv| ==> mid.hv[u].owned == hv[u].owned
    requires var p := g.Src(k)[j];
             var t := if g.IsView(p) then g.tensors[p].viewSrc.value else p;
             mid.hv[t].owned && mid.hv[t].nChildren == 0 && mid.hv[t].nViews == 0 && FreeNode(g, cfg, mid, t).Some?
    ensures var p := g.Src(k)[j];
            var t := if g.IsView(p) then g.tensors[p].viewSrc.value else p;
            var s' := FreeNode(g, cfg, mid, t).value;
            UpdateInv(g, cfg, s', k, j + 1, taken)
  {
    hide FreeNode;
    hide MemInv;
    hide NeededAt;
    var p := g.Src(k)[j];
    var t := if g.IsView(p) then g.tensors[p].viewSrc.value else p;
    if g.IsView(p) { assert CountedView(g, p); }
    var s' := FreeNode(g, cfg, mid, t).value;
    FreeNodeKeepsInv(g, cfg, mid, t);
    CountersDecide(g, mid.hv, t, k, j);
    SameCountersOk(g, mid.hv, s'.hv, k, j + 1);
    if g.tensors[t].output {
      ForgetRead(g, hv, s'.hv, k, j, taken);
    } else {
      ForgetFreed(g, hv, s'.hv, k, j, taken, t);
    }
  }

  /** The state after counting down a source edge that is not the last one of a view. */
  lemma AfterCountDown(g: Graph, cfg: Config, s: State, k: nat, j: nat)
    requires Consistent(g, cfg, s, k, j) && j < |g.Src(k)|
    requires g.IsView(g.Src(k)[j]) ==> s.hv[g.Src(k)[j]].nChildren != 1
    ensures Consistent(g, cfg, s.(hv := AddChildren(s.hv, g.Src(k)[j], -1)), k, j + 1)
  {
    var p := g.Src(k)[j];
    CountDown(g, s.hv, k, j);
    UsesPositive(g, p, 0, k, j);
    ViewCountsAfterCountDown(g, s.hv, p);
    CountersKeepInv(g, cfg, s, AddChildren(s.hv, p, -1));
  }

  /** The state after a view lost its last reader and its root was told. */
  lemma AfterRetire(g: Graph, cfg: Config, s: State, k: nat, j: nat)
    requires Consistent(g, cfg, s, k, j) && j < |g.Src(k)| && g.IsView(g.Src(k)[j])
    requires s.hv[g.Src(k)[j]].nChildren == 1
    ensures var p := g.Src(k)[j];
            Consistent(g, cfg, s.(hv := AddViews(AddChildren(s.hv, p, -1), g.tensors[p].viewSrc.value, -1)), k, j + 1)
  {
    var p := g.Src(k)[j];
    var root := g.tensors[p].viewSrc.value;
    assert CountedView(g, p);
    CountDown(g, s.hv, k, j);
    UsesPositive(g, p, 0, k, j);
    ViewCountsAfterRetire(g, s.hv, p, root);
    CountersKeepInv(g, cfg, s, AddViews(AddChildren(s.hv, p, -1), root, -1));
  }

  /** A view is read for the last time. */
  lemma RetireViewParent(g: Graph, cfg: Config, s: State, k: nat, j: nat, taken: Option<nat>)
    requires UpdateInv(g, cfg, s, k, j, taken) && j < |g.Src(k)| && g.IsView(g.Src(k)[j])
    requires UpdateParent(g, cfg, s, g.Src(k)[j]).Some? && s.hv[g.Src(k)[j]].nChildren == 1
    ensures UpdateInv(g, cfg, UpdateParent(g, cfg, s, g.Src(k)[j]).value, k, j + 1, taken)
  {
    hide FreeNode;
    hide MemInv;
    hide NeededAt;
    hide Active;
    hide Rem;
    var p := g.Src(k)[j];
    var root := g.tensors[p].viewSrc.value;
    assert CountedView(g, p);
    ViewsHaveNoViews(g, s.hv, p);
    var s2 := s.(hv := AddViews(AddChildren(s.hv, p, -1), root, -1));
    AfterRetire(g, cfg, s, k, j);
    if s2.hv[root].nViews == 0 && s2.hv[root].nChildren == 0 && s2.hv[root].owned {
      FreeUnneeded(g, cfg, s.hv, s2, k, j, taken);
    } else {
      CountersDecide(g, s2.hv, root, k, j);
      ForgetRead(g, s.hv, s2.hv, k, j, taken);
    }
  }

  lemma UpdateViewParent(g: Graph, cfg: Config, s: State, k: nat, j: nat, taken: Option<nat>)
    requires UpdateInv(g, cfg, s, k, j, taken) && j < |g.Src(k)| && g.IsView(g.Src(k)[j])
    requires UpdateParent(g, cfg, s, g.Src(k)[j]).Some?
    ensures UpdateInv(g, cfg, UpdateParent(g, cfg, s, g.Src(k)[j]).value, k, j + 1, taken)
  {
    hide FreeNode;
    hide MemInv;
    hide NeededAt;
    var p := g.Src(k)[j];
    if s.hv[p].nChildren == 1 {
      RetireViewParent(g, cfg, s, k, j, taken);
    } else {
      assert CountedView(g, p);
      var s1 := s.(hv := AddChildren(s.hv, p, -1));
      AfterCountDown(g, cfg, s, k, j);
      ViewStillRead(g, s1.hv, p, g.tensors[p].viewSrc.value, k, j);
      ForgetRead(g, s.hv, s1.hv, k, j, taken);
    }
  }

  /** A view with readers left keeps its root needed. */
  lemma ViewStillRead(g: Graph, hv: seq<HashNode>, p: nat, root: nat, k: nat, j: nat)
    requires Ordered(g) && |hv| == |g.tensors| && p < |hv| && k < |g.nodes| && j < |g.Src(k)| && g.Src(k)[j] == p
    requires CountedView(g, p) && g.tensors[p].viewSrc == Some(root)
    requires CountsAt(g, hv, k, j + 1) && hv[p].nChildren != 0
    ensures NeededAt(g, root, k, j + 1)
  {
    assert p in ViewsOf(g, root) && Rem(g, p, k, j + 1) > 0;
  }

  lemma UpdatePlainParent(g: Graph, cfg: Config, s: State, k: nat, j: nat, taken: Option<nat>)
    requires UpdateInv(g, cfg, s, k, j, taken) && j < |g.Src(k)| && !g.IsView(g.Src(k)[j])
    requires UpdateParent(g, cfg, s, g.Src(k)[j]).Some?
    ensures UpdateInv(g, cfg, UpdateParent(g, cfg, s, g.Src(k)[j]).value, k, j + 1, taken)
  {
    hide FreeNode;
    hide MemInv;
    var p := g.Src(k)[j];
    var s1 := s.(hv := AddChildren(s.hv, p, -1));
    AfterCountDown(g, cfg, s, k, j);
    CountersDecide(g, s1.hv, p, k, j);
    if s1.hv[p].nChildren == 0 && s1.hv[p].nViews == 0 && s1.hv[p].owned {
      FreeUnneeded(g, cfg, s.hv, s1, k, j, taken);
    } else {
      ForgetRead(g, s.hv, s1.hv, k, j, taken);
    }
  }

  lemma UpdateParentKeepsPlaces(g: Graph, cfg: Config, s: State, p: nat)
    requires Shape(g, cfg, s) && p < |s.hv| && UpdateParent(g, cfg, s, p).Some?
    ensures AllSamePlaces(s.hv, UpdateParent(g, cfg, s, p).value.hv)
  {
    hide FreeBytes;
  }

  lemma {:induction false} UpdateParentsKeepInv(g: Graph, cfg: Config, s: State, k: nat, j: nat, taken: Option<nat>)
    requires UpdateInv(g, cfg, s, k, j, taken)
    requires UpdateParents(g, cfg, s, k, j).Some?
    ensures var s' := UpdateParents(g, cfg, s, k, j).value;
            UpdateInv(g, cfg, s', k, |g.Src(k)|, taken) && AllSamePlaces(s.hv, s'.hv)
    decreases |g.Src(k)| - j
  {
    if j < |g.Src(k)| {
      if g.IsView(g.Src(k)[j]) {
        UpdateViewParent(g, cfg, s, k, j, taken);
      } else {
        UpdatePlainParent(g, cfg, s, k, j, taken);
      }
      UpdateParentKeepsPlaces(g, cfg, s, g.Src(k)[j]);
      UpdateParentsKeepInv(g, cfg, UpdateParent(g, cfg, s, g.Src(k)[j]).value, k, j + 1, taken);
    }
  }

  /** The parent taken over in place has no reader left once node k has executed. */
  lemma TakenIsDone(g: Graph, cfg: Config, s: State, m: State, k: nat, p: nat)
    requires LoopInv(g, cfg, s, k) && k < |g.nodes| && Shape(g, cfg, m)
    requires HandedOver(g, cfg, s, m, g.nodes[k], p)
    ensures !ReadFrom(g, p, k + 1) && !NeededBefore(g, p, k + 1)
  {
    var j :| 0 <= j < |g.Src(k)| && g.Src(k)[j] == p;
    LastReader(g, s.hv, p, k, j);
    ReadTensorsAreOld(g, k, j);
  }

  lemma StepKeepsInv(g: Graph, cfg: Config, buf: nat, s: State, k: nat)
    requires LoopInv(g, cfg, s, k) && k < |g.nodes| && buf < |cfg.bufts|
    requires Step(g, cfg, buf, s, k).Some?
    ensures LoopInv(g, cfg, Step(g, cfg, buf, s, k).value, k + 1)
    ensures SamePlaces(g, s.hv, Step(g, cfg, buf, s, k).value.hv, k)
    ensures AllSamePlaces(Prepare(g, cfg, buf, s, k).value.hv, Step(g, cfg, buf, s, k).value.hv)
  {
    hide Prepare;
    hide AllocateNode;
    hide Taken;
    hide UpdateParents;
    hide MemInv;
    var m, s', taken := Prepare(g, cfg, buf, s, k).value, Step(g, cfg, buf, s, k).value, Taken(g, cfg, s, g.nodes[k]);
    hide Known;
    hide NeededBefore;
    hide HandedOver;
    hide AllocEffect;
    PrepareMeaning(g, cfg, buf, s, k);
    PrepareEstablishesUpdateInv(g, cfg, buf, s, k);
    UpdateParentsKeepInv(g, cfg, m, k, 0, taken);
    if taken.Some? { TakenIsDone(g, cfg, s, m, k, taken.value); }
    UpdateIsDone(g, cfg, s', k, taken);
  }

  /** Once the last parent of node k has been updated the invariant of the next step holds. */
  lemma UpdateIsDone(g: Graph, cfg: Config, s: State, k: nat, taken: Option<nat>)
    requires Ordered(g) && k < |g.nodes| && UpdateInv(g, cfg, s, k, |g.Src(k)|, taken)
    requires taken.Some? ==> taken.value < |g.tensors| && !NeededBefore(g, taken.value, k + 1)
    ensures LoopInv(g, cfg, s, k + 1)
  {
    hide MemInv;
    hide Known;
    forall t | Storable(g, t) ensures s.hv[t].owned <==> Known(g, t, k + 1) && NeededBefore(g, t, k + 1) {
      PendingAtEnd(g, t, k);
    }
  }

  // ---------------------------------------------------------------- the whole loop

  lemma LoopInvShape(g: Graph, cfg: Config, s: State, k: nat)
    requires LoopInv(g, cfg, s, k)
    ensures Shape(g, cfg, s)
  {
  }

  lemma {:induction false} LoopKeepsInv(g: Graph, cfg: Config, nodeBufs: seq<nat>, s: State, k: nat)
    requires LoopInv(g, cfg, s, 0) && k <= |g.nodes|
    requires Before(g, cfg, nodeBufs, s, k).Some?
    ensures LoopInv(g, cfg, Before(g, cfg, nodeBufs, s, k).value, k)
  {
    hide Step;
    hide Shape;
    hide BufOf;
    hide LoopInv;
    hide SamePlaces;
    LoopInvShape(g, cfg, s, 0);
    if k > 0 {
      LoopKeepsInv(g, cfg, nodeBufs, s, k - 1);
      StepKeepsInv(g, cfg, BufOf(cfg, nodeBufs, k - 1), Before(g, cfg, nodeBufs, s, k - 1).value, k - 1);
    }
  }

  lemma KnownGrows(g: Graph, t: nat, k: int, n: int)
    requires k <= n && Known(g, t, k)
    ensures Known(g, t, n)
  {
    if g.NodeBefore(t, k) {
      var i :| 0 <= i < k && i < |g.nodes| && g.nodes[i] == t;
      assert 0 <= i < n && i < |g.nodes| && g.nodes[i] == t;
    }
  }

  lemma SamePlacesRefl(g: Graph, a: seq<HashNode>, k: int)
    ensures SamePlaces(g, a, a, k)
  {
  }

  lemma SamePlacesCompose(g: Graph, a: seq<HashNode>, b: seq<HashNode>, c: seq<HashNode>, k: int, n: int)
    requires k <= n && SamePlaces(g, a, b, k) && SamePlaces(g, b, c, n)
    ensures SamePlaces(g, a, c, k)
  {
    forall t | 0 <= t < |a| && Known(g, t, k) ensures Known(g, t, n) { KnownGrows(g, t, k, n); }
  }

  /** One step further from an already known prefix of the loop. */
  lemma PlacesStep(g: Graph, cfg: Config, nodeBufs: seq<nat>, s: State, a: seq<HashNode>, k: nat, n: nat)
    requires LoopInv(g, cfg, s, 0) && k <= n < |g.nodes|
    requires Before(g, cfg, nodeBufs, s, n + 1).Some?
    requires SamePlaces(g, a, Before(g, cfg, nodeBufs, s, n).value.hv, k)
    ensures SamePlaces(g, a, Before(g, cfg, nodeBufs, s, n + 1).value.hv, k)
  {
    hide Step;
    hide Shape;
    hide BufOf;
    hide LoopInv;
    hide SamePlaces;
    LoopInvShape(g, cfg, s, 0);
    LoopKeepsInv(g, cfg, nodeBufs, s, n);
    var b, c := Before(g, cfg, nodeBufs, s, n).value, Before(g, cfg, nodeBufs, s, n + 1).value;
    StepKeepsInv(g, cfg, BufOf(cfg, nodeBufs, n), b, n);
    SamePlacesCompose(g, a, b.hv, c.hv, k, n);
  }

  lemma {:induction false} BeforeIsDefined(g: Graph, cfg: Config, nodeBufs: seq<nat>, s: State, k: nat, n: nat)
    requires Shape(g, cfg, s) && k <= n <= |g.nodes|
    requires Before(g, cfg, nodeBufs, s, n).Some?
    ensures Before(g, cfg, nodeBufs, s, k).Some?
    decreases n
  {
    hide Step;
    hide Shape;
    if k < n { BeforeIsDefined(g, cfg, nodeBufs, s, k, n - 1); }
  }

  /** A tensor's address never changes after the step that placed it. */
  lemma {:induction false} PlacesAreFinal(g: Graph, cfg: Config, nodeBufs: seq<nat>, s: State, k: nat, n: nat)
    requires LoopInv(g, cfg, s, 0) && k <= n <= |g.nodes|
    requires Before(g, cfg, nodeBufs, s, n).Some?
    ensures Before(g, cfg, nodeBufs, s, k).Some?
    ensures SamePlaces(g, Before(g, cfg, nodeBufs, s, k).value.hv, Before(g, cfg, nodeBufs, s, n).value.hv, k)
    decreases n
  {
    hide Step;
    hide Shape;
    hide BufOf;
    hide LoopInv;
    hide SamePlaces;
    LoopInvShape(g, cfg, s, 0);
    if k < n {
      BeforeIsDefined(g, cfg, nodeBufs, s, n - 1, n);
      PlacesAreFinal(g, cfg, nodeBufs, s, k, n - 1);
      PlacesStep(g, cfg, nodeBufs, s, Before(g, cfg, nodeBufs, s, k).value.hv, k, n - 1);
    } else {
      SamePlacesRefl(g, Before(g, cfg, nodeBufs, s, n).value.hv, k);
    }
  }
}
